/**
 One Script Project as a transition system: its rows, its stored content, the holder of its
 project lock, the cleanup jobs deletion records, validation runs, and the Script rows.

 Every action is one database transaction, one conditional UPDATE or one backend mutation, so
 anything may happen between any two of them. A disabled action changes nothing, which makes
 Exec total and lets every theorem range over all action sequences.

 SHA-256 is taken to be injective, so a digest is the tree it addresses and a script file
 digest is the selection it addresses.
 */
module Lifecycle {
  import opened Prelude
  import opened ScriptSync

  type Path = string
  type Tree = map<Path, Bytes>
  type Selection = map<nat, Path>

  /** The backend key of one file of one stored revision. */
  datatype Key = Key(tree: Tree, path: Path)

  datatype Status = Staging | Materialized | StorageFailed | Validating | Valid | Invalid | Active | Retired

  /** STORED_REVISION_STATUSES. */
  predicate Stored(s: Status) { s in {Materialized, Valid, Active, Retired} }

  /** RETRYABLE_REVISION_STATUSES, which are also the UNSTORED ones. */
  predicate Retryable(s: Status) { s in {Staging, StorageFailed} }

  /** ACTIVATABLE_REVISION_STATUSES. */
  predicate Activatable(s: Status) { s in {Valid, Retired} }

  /** A Script Project Revision. Identifiers are assigned in creation order. */
  datatype Row = Row(
    digest: Option<Tree>,
    selection: Selection,
    status: Status,
    errors: seq<string>,
    published: Snapshot,
    owner: Option<nat>,
    started: nat)

  /** A Script File declaration and what discovery last recorded on it. */
  datatype FileRow = FileRow(path: Path, enabled: bool, outcome: string, discovered: Option<nat>)

  datatype CleanupJob = CleanupJob(tree: Tree, finished: bool)

  /** What one validation run concluded. */
  datatype Verdict = Verdict(valid: bool, errors: seq<string>, published: Snapshot, outcomes: map<nat, string>)

  datatype Outcome = Working | Decided(verdict: Verdict) | GaveUp

  /** One execution of a validation Job. A Job run again, from the queue or by hand, is another run of it. */
  datatype Run = Run(job: nat, revision: nat, started: nat, outcome: Outcome)

  datatype Upload = Upload(path: Path, content: Bytes)

  datatype StagePhase =
    | Lookup
    | Decide(id: nat, seen: Status)
    | Writing(id: nat, todo: set<Path>)
    | Verified(id: nat)
    | Failing(id: nat)

  datatype RefreshPhase = VerifySource | Create | Settle(id: nat)

  datatype CleanPhase = Recheck | Kept | Deleting(todo: set<Path>, failed: set<Path>)

  /** What the holder of the project lock is doing. */
  datatype Holder =
    | Idle
    | Storing(tree: Tree, selection: Selection, once: bool, upload: Option<Upload>, stage: StagePhase)
    | Refreshing(tree: Tree, selection: Selection, refresh: RefreshPhase)
    | Accepting(tree: Tree, row: nat, seen: Status, once: bool, upload: Option<Upload>)
    | Cleaning(job: nat, tree: Tree, clean: CleanPhase)
    | Promoting(row: nat, snapshot: Row, automatic: bool, verified: bool)

  datatype VerdictEvent = VerdictEvent(revision: nat, run: nat, verdict: Verdict)

  datatype Discovery = Discovery(file: nat, revision: nat, started: nat, outcome: string)

  /** What happened, for the theorems to speak about. No step reads it. */
  datatype History = History(
    claimant: map<nat, nat>,
    verdicts: seq<VerdictEvent>,
    uploads: seq<Upload>,
    requests: seq<nat>,
    request: Option<nat>,
    consumed: seq<nat>,
    discoveries: seq<Discovery>)

  /** What the storage layer keeps: the rows, the backend, and the cleanup jobs on record. */
  datatype Core = Core(rows: map<nat, Row>, nextRow: nat, store: map<Key, Bytes>, jobs: map<nat, CleanupJob>)

  /** The project row and the Scripts it publishes. */
  datatype Site = Site(
    uploaded: bool,
    automatic: bool,
    active: Option<nat>,
    source: Option<nat>,
    pending: bool,
    scripts: Rows)

  /** The declarations, and the validation runs on their way to a verdict. */
  datatype Work = Work(files: map<nat, FileRow>, nextFile: nat, runs: map<nat, Run>, clock: nat)

  datatype State = State(core: Core, holder: Holder, site: Site, work: Work, history: History)

  datatype Action =
    | BeginUpload(path: Path, content: Bytes, declare: bool, once: bool)
    | BeginIngest(tree: Tree)
    | RejectContent(problems: seq<string>)
    | LookUpRow
    | ClaimWrite
    | WriteFile(path: Path)
    | WriteFails(path: Path, junk: Option<Bytes>)
    | VerifyWritten
    | RecordFailure
    | SettleWritten
    | Accept
    | BeginRefresh
    | VerifyRefreshed
    | CreateRefreshed
    | SettleRefreshed
    | BeginCleanup(job: nat)
    | RecheckReferences
    | DeleteKey(path: Path, fails: bool)
    | FinishCleanup
    | BeginPromotion(row: nat, snapshot: Row, automatically: bool)
    | VerifyPromoted
    | CommitPromotion
    | Deactivate(row: nat)
    | Crash
    | DeleteRows(ids: set<nat>)
    | SaveScript(identity: Identity, stale: Script)
    | SaveProject(automatic: bool)
    | AddFile(path: Path)
    | EnableFile(file: nat, on: bool)
    | RemoveFile(file: nat)
    | ClaimValidation(run: nat, job: nat, row: nat)
    | ReachVerdict(run: nat, verdict: Verdict)
    | RevertClaim(run: nat)
    | LoseWorker(run: nat)
    | PersistDiscovery(run: nat, file: nat)
    | Tick(elapsed: nat)

  /** VALIDATION_LEASE_SECONDS. */
  const LEASE: nat := 30 * 60

  // ----- Readings --------------------------------------------------------------------------

  /** Every key of one tree holds the recorded bytes. */
  ghost predicate Intact(store: map<Key, Bytes>, tree: Tree) {
    forall p :: p in tree ==> Key(tree, p) in store && store[Key(tree, p)] == tree[p]
  }

  ghost predicate Referenced(rows: map<nat, Row>, tree: Tree) {
    exists id :: id in rows && rows[id].digest == Some(tree)
  }

  predicate Usable(row: Row) { row.digest.Some? && !Retryable(row.status) }

  /** ScriptProject.latest_stored_revision: the accepted source, else the newest stored row. */
  ghost function LatestStored(core: Core, source: Option<nat>): (r: Option<nat>)
    ensures r.Some? ==> r.value in core.rows && Usable(core.rows[r.value])
  {
    if source.Some? && source.value in core.rows && Usable(core.rows[source.value]) then source
    else NewestUsable(core.rows, core.nextRow)
  }

  ghost function NewestUsable(rows: map<nat, Row>, below: nat): (r: Option<nat>)
    ensures r.Some? ==> r.value in rows && Usable(rows[r.value])
    ensures r.None? ==> forall id :: id in rows && id < below ==> !Usable(rows[id])
  {
    if below == 0 then None
    else if below - 1 in rows && Usable(rows[below - 1]) then Some(below - 1)
    else NewestUsable(rows, below - 1)
  }

  /** The tree an upload merges into: ingestion.current_source_tree. */
  ghost function CurrentTree(core: Core, source: Option<nat>): Tree {
    var latest := LatestStored(core, source);
    if latest.Some? then core.rows[latest.value].digest.value else map[]
  }

  /** build_script_file_snapshot over the enabled declarations. */
  function Selected(files: map<nat, FileRow>): Selection {
    map f | f in files && files[f].enabled :: files[f].path
  }

  /** The row get_or_create finds for an identity triple, if there is one. */
  ghost function FindRow(rows: map<nat, Row>, tree: Tree, selection: Selection): (r: Option<nat>)
    ensures r.Some? ==> r.value in rows && rows[r.value].digest == Some(tree)
                        && rows[r.value].selection == selection
    ensures r.None? ==> forall id :: id in rows ==>
                        !(rows[id].digest == Some(tree) && rows[id].selection == selection)
  {
    if id :| id in rows && rows[id].digest == Some(tree) && rows[id].selection == selection then Some(id) else None
  }

  function NewRowFor(tree: Tree, selection: Selection, status: Status): Row {
    Row(Some(tree), selection, status, [], map[], None, 0)
  }

  /** Insert one row under the next identifier. */
  function Insert(core: Core, row: Row): Core {
    core.(rows := core.rows[core.nextRow := row], nextRow := core.nextRow + 1)
  }

  /** A conditional UPDATE moving one row to a status, if it still has one of the expected ones. */
  function Move(core: Core, id: nat, expected: set<Status>, status: Status, errors: seq<string>): Core {
    if id in core.rows && core.rows[id].status in expected then
      core.(rows := core.rows[id := core.rows[id].(status := status, errors := errors)])
    else core
  }

  function Release(s: State): State { s.(holder := Idle) }

  // ----- Staging (storage/service.py, ingestion.py) ------------------------------------------

  /** The declaration of a path, if there is one. */
  ghost function FileOf(files: map<nat, FileRow>, path: Path): (r: Option<nat>)
    ensures r.Some? ==> r.value in files && files[r.value].path == path
    ensures r.None? ==> forall f :: f in files ==> files[f].path != path
  {
    if f :| f in files && files[f].path == path then Some(f) else None
  }

  /** declare_script_file: enable the declaration of a path, creating it when there is none. */
  ghost function Declared(work: Work, path: Path): Work {
    var found := FileOf(work.files, path);
    if found.Some? then work.(files := work.files[found.value := work.files[found.value].(enabled := true)])
    else AddedFile(work, path)
  }

  function AddedFile(work: Work, path: Path): Work {
    work.(files := work.files[work.nextFile := FileRow(path, true, "pending", None)], nextFile := work.nextFile + 1)
  }

  ghost function StartUpload(s: State, path: Path, content: Bytes, declare: bool, once: bool): State {
    var work := if declare then Declared(s.work, path) else s.work;
    var latest := LatestStored(s.core, s.site.source);
    // A damaged tree raises here, after the declaration committed.
    if latest.Some? && !Intact(s.core.store, s.core.rows[latest.value].digest.value) then s.(work := work)
    else s.(work := work,
            holder := Storing(CurrentTree(s.core, s.site.source)[path := content], Selected(work.files), once,
                              Some(Upload(path, content)), Lookup))
  }

  ghost function LookedUp(s: State): State
    requires s.holder.Storing? && s.holder.stage.Lookup?
  {
    var h := s.holder;
    var found := FindRow(s.core.rows, h.tree, h.selection);
    if found.Some? then s.(holder := h.(stage := Decide(found.value, s.core.rows[found.value].status)))
    else s.(core := Insert(s.core, NewRowFor(h.tree, h.selection, Staging)),
            holder := h.(stage := Decide(s.core.nextRow, Staging)))
  }

  /** One turn of the retry loop around the STAGING claim. */
  ghost function Claimed(s: State): State
    requires s.holder.Storing? && s.holder.stage.Decide?
  {
    var h, id, seen := s.holder, s.holder.stage.id, s.holder.stage.seen;
    if Stored(seen) then
      if Intact(s.core.store, h.tree) then s.(holder := Accepting(h.tree, id, seen, h.once, h.upload)) else Release(s)
    else if !Retryable(seen) then s.(holder := Accepting(h.tree, id, seen, h.once, h.upload))
    else if id !in s.core.rows then Release(s)
    else if Retryable(s.core.rows[id].status) then
      s.(core := Move(s.core, id, {Staging, StorageFailed}, Staging, s.core.rows[id].errors),
         holder := h.(stage := Writing(id, h.tree.Keys)))
    else s.(holder := h.(stage := Decide(id, s.core.rows[id].status)))
  }

  /** One backend mutation of _write_one: leave recorded content, remove anything else, or save. */
  function Wrote(s: State, path: Path): State
    requires s.holder.Storing? && s.holder.stage.Writing? && path in s.holder.tree
  {
    var h, key := s.holder, Key(s.holder.tree, path);
    var next := h.(stage := h.stage.(todo := h.stage.todo - {path}));
    if key !in s.core.store then s.(core := s.core.(store := s.core.store[key := h.tree[path]]), holder := next)
    else if s.core.store[key] == h.tree[path] then s.(holder := next)
    else s.(core := s.core.(store := s.core.store - {key}))
  }

  /** A failed write: a save may leave anything at a key it found free. */
  function WriteFailed(s: State, path: Path, junk: Option<Bytes>): State
    requires s.holder.Storing? && s.holder.stage.Writing?
  {
    var key := Key(s.holder.tree, path);
    var failing := s.holder.(stage := Failing(s.holder.stage.id));
    if junk.Some? && key !in s.core.store then
      s.(core := s.core.(store := s.core.store[key := junk.value]), holder := failing)
    else s.(holder := failing)
  }

  function FailureRecorded(s: State): State
    requires s.holder.Storing? && s.holder.stage.Failing?
  {
    s.(core := Move(s.core, s.holder.stage.id, {Staging}, StorageFailed, ["storage_write_failed"]), holder := Idle)
  }

  function WriteSettled(s: State): State
    requires s.holder.Storing? && s.holder.stage.Verified?
  {
    var h, id := s.holder, s.holder.stage.id;
    if id !in s.core.rows then Release(s)
    else
      var core := Move(s.core, id, {Staging}, Materialized, []);
      s.(core := core, holder := Accepting(h.tree, id, core.rows[id].status, h.once, h.upload))
  }

  /** _accept_source. A row deleted underneath fails the foreign key and accepts nothing. */
  function Accepted(s: State): State
    requires s.holder.Accepting?
  {
    var h := s.holder;
    if h.row !in s.core.rows || s.core.rows[h.row].digest.None? || Retryable(h.seen) then Release(s)
    else
      var kept := s.site.source == Some(h.row) && s.site.pending;
      s.(holder := Idle,
         site := s.site.(source := Some(h.row), pending := (h.once || kept) && h.seen != Active),
         history := AcceptanceNoted(s.history, h.row, h.once && h.seen != Active, kept && h.seen != Active, h.upload))
  }

  function AcceptanceNoted(history: History, row: nat, asked: bool, kept: bool, upload: Option<Upload>): History {
    history.(
      uploads := if upload.Some? then history.uploads + [upload.value] else history.uploads,
      requests := if asked then history.requests + [row] else history.requests,
      request := if asked then Some(|history.requests|) else if kept then history.request else None)
  }

  // ----- Script file refresh ----------------------------------------------------------------

  ghost function StartRefresh(s: State): State {
    var latest := LatestStored(s.core, s.site.source);
    if latest.None? then s
    else s.(holder := Refreshing(s.core.rows[latest.value].digest.value, Selected(s.work.files), VerifySource))
  }

  ghost function RefreshCreated(s: State): State
    requires s.holder.Refreshing? && s.holder.refresh.Create?
  {
    var h := s.holder;
    var found := FindRow(s.core.rows, h.tree, h.selection);
    if found.None? then
      s.(core := Insert(s.core, NewRowFor(h.tree, h.selection, Materialized)),
         holder := Accepting(h.tree, s.core.nextRow, Materialized, false, None))
    else if Retryable(s.core.rows[found.value].status) then s.(holder := h.(refresh := Settle(found.value)))
    else s.(holder := Accepting(h.tree, found.value, s.core.rows[found.value].status, false, None))
  }

  function RefreshSettled(s: State): State
    requires s.holder.Refreshing? && s.holder.refresh.Settle?
  {
    var h, id := s.holder, s.holder.refresh.id;
    if id !in s.core.rows then Release(s)
    else
      var core := Move(s.core, id, {Staging, StorageFailed}, Materialized, []);
      s.(core := core, holder := Accepting(h.tree, id, core.rows[id].status, false, None))
  }

  // ----- Deletion and cleanup (signals.py, jobs.py) -------------------------------------------

  function Cleared(pointer: Option<nat>, ids: set<nat>): Option<nat> {
    if pointer.Some? && pointer.value in ids then None else pointer
  }

  /**
   The rows go, and each digest no surviving row names gets a cleanup job. A row is deleted at
   most once, so its identifier names its job.
   */
  ghost function RowsDeleted(core: Core, ids: set<nat>): Core {
    core.(rows := core.rows - ids,
          jobs := core.jobs + (map id | id in core.rows && id in ids && core.rows[id].digest.Some?
                                        && core.rows[id].digest.value != map[]
                                        && !Referenced(core.rows - ids, core.rows[id].digest.value)
                                 :: CleanupJob(core.rows[id].digest.value, false)))
  }

  /** One deleting transaction: every pointer to a deleted row clears with it. */
  ghost function Deleted(s: State, ids: set<nat>): State {
    s.(core := RowsDeleted(s.core, ids),
       site := s.site.(
         active := Cleared(s.site.active, ids),
         source := Cleared(s.site.source, ids),
         scripts := map i | i in s.site.scripts ::
                      s.site.scripts[i].(lastSeen := Cleared(s.site.scripts[i].lastSeen, ids))),
       work := s.work.(
         files := map f | f in s.work.files ::
                    s.work.files[f].(discovered := Cleared(s.work.files[f].discovered, ids))))
  }

  ghost function Rechecked(s: State): State
    requires s.holder.Cleaning?
  {
    s.(holder := s.holder.(clean := if Referenced(s.core.rows, s.holder.tree) then Kept
                                    else Deleting(s.holder.tree.Keys, {})))
  }

  function KeyDeleted(s: State, path: Path, fails: bool): State
    requires s.holder.Cleaning? && s.holder.clean.Deleting?
  {
    var h, d := s.holder, s.holder.clean;
    if fails then s.(holder := h.(clean := Deleting(d.todo - {path}, d.failed + {path})))
    else s.(core := s.core.(store := s.core.store - {Key(h.tree, path)}),
            holder := h.(clean := Deleting(d.todo - {path}, d.failed)))
  }

  /** The job ends: finished when the content stays referenced or every key is gone. */
  function CleanupFinished(s: State): State
    requires s.holder.Cleaning? && !s.holder.clean.Recheck?
  {
    var h := s.holder;
    if h.clean.Kept? || h.clean.failed == {} then
      s.(core := s.core.(jobs := s.core.jobs[h.job := CleanupJob(h.tree, true)]), holder := Idle)
    else Release(s)
  }

  // ----- Activation (storage/service.py, activation.py) ---------------------------------------

  ghost predicate AutomaticallyPermitted(s: State, id: nat)
    requires id in s.core.rows
  {
    && s.site.source == Some(id)
    && (s.site.pending || s.site.automatic)
    && Selected(s.work.files) == s.core.rows[id].selection
  }

  predicate Serving(s: State, id: nat)
    requires id in s.core.rows
  {
    s.core.rows[id].status == Active && s.site.active == Some(id)
  }

  ghost predicate Promotable(s: State)
    requires s.holder.Promoting?
  {
    var h := s.holder;
    && h.row in s.core.rows
    && (h.automatic ==> AutomaticallyPermitted(s, h.row))
    && s.core.rows[h.row].digest == h.snapshot.digest
    && s.core.rows[h.row].selection == h.snapshot.selection
    && s.core.rows[h.row].published == h.snapshot.published
    && (Activatable(s.core.rows[h.row].status) || Serving(s, h.row))
    && s.core.rows[h.row].digest.Some?
    && (s.site.active.Some? ==> s.site.active.value in s.core.rows)
  }

  /** Both statuses move together: the previous revision retires first. */
  function Repointed(rows: map<nat, Row>, previous: Option<nat>, id: nat): map<nat, Row>
    requires id in rows
  {
    var stoodDown := if previous.Some? && previous.value in rows
                     then rows[previous.value := rows[previous.value].(status := Retired)] else rows;
    stoodDown[id := stoodDown[id].(status := Active)]
  }

  /** The one-shot request is spent by whichever promotion serves the accepted source. */
  function Spends(site: Site, id: nat): bool { site.source == Some(id) && site.pending }

  function ConsumptionNoted(history: History): History {
    if history.request.None? then history
    else history.(consumed := history.consumed + [history.request.value], request := None)
  }

  /** The promotion transaction. Anything it refuses rolls back whole. */
  ghost function Promoted(s: State): State
    requires s.holder.Promoting?
  {
    if !Promotable(s) then Release(s)
    else
      var id := s.holder.row;
      State(if Serving(s, id) then s.core
            else s.core.(rows := Repointed(s.core.rows, s.site.active, id)),
            Idle,
            s.site.(active := Some(id),
                    pending := s.site.pending && !Spends(s.site, id),
                    scripts := Synced(s.site.scripts, s.core.rows[id].published, id)),
            s.work,
            if Spends(s.site, id) then ConsumptionNoted(s.history) else s.history)
  }

  function Deactivated(s: State, id: nat): State
    requires id in s.core.rows
  {
    s.(core := s.core.(rows := s.core.rows[id := s.core.rows[id].(status := Retired)]),
       site := s.site.(active := None, scripts := Synced(s.site.scripts, map[], id)))
  }

  /** A full save restores what publication owns from the locked row. */
  function ScriptSaved(scripts: Rows, i: Identity, stale: Script): Rows
    requires i in scripts
  {
    scripts[i := scripts[i].(enabled := stale.enabled, overrides := stale.overrides)]
  }

  // ----- Validation (validation.py) ----------------------------------------------------------

  predicate Claimable(row: Row, clock: nat) {
    || row.status == Materialized
    || (row.status == Validating && row.started + LEASE < clock)
  }

  function ValidationClaimed(s: State, run: nat, job: nat, id: nat): State
    requires id in s.core.rows
  {
    s.(core := s.core.(rows := s.core.rows[id :=
         s.core.rows[id].(status := Validating, owner := Some(job), started := s.work.clock)]),
       work := s.work.(runs := s.work.runs[run := Run(job, id, s.work.clock, Working)]),
       history := s.history.(claimant := s.history.claimant[id := run]))
  }

  /** The ownership fence every final write filters on. It compares the Job, which names no single run. */
  predicate Owns(rows: map<nat, Row>, run: Run) {
    run.revision in rows && rows[run.revision].status == Validating && rows[run.revision].owner == Some(run.job)
  }

  predicate Consistent(v: Verdict) {
    (v.valid ==> v.errors == []) && (!v.valid ==> v.published == map[])
  }

  function Concluded(work: Work, run: nat, outcome: Outcome): Work
    requires run in work.runs
  {
    work.(runs := work.runs[run := work.runs[run].(outcome := outcome)])
  }

  /** The row a verdict leaves. */
  function JudgedRow(row: Row, v: Verdict): Row {
    row.(status := if v.valid then Valid else Invalid, errors := v.errors, published := v.published)
  }

  /** _finalize, then the run either persists its outcomes or has lost its claim. */
  function VerdictReached(s: State, run: nat, v: Verdict): State
    requires run in s.work.runs
  {
    var id := s.work.runs[run].revision;
    if !Owns(s.core.rows, s.work.runs[run]) then s.(work := Concluded(s.work, run, GaveUp))
    else
      s.(core := s.core.(rows := s.core.rows[id := JudgedRow(s.core.rows[id], v)]),
         work := Concluded(s.work, run, Decided(v)),
         history := s.history.(verdicts := s.history.verdicts + [VerdictEvent(id, run, v)]))
  }

  /** _revert_to_materialized. */
  function ClaimReverted(s: State, run: nat): State
    requires run in s.work.runs
  {
    var id := s.work.runs[run].revision;
    var work := Concluded(s.work, run, GaveUp);
    if !Owns(s.core.rows, s.work.runs[run]) then s.(work := work)
    else
      s.(core := s.core.(rows := s.core.rows[id :=
           s.core.rows[id].(status := Materialized, owner := None, started := 0)]),
         work := work)
  }

  /** A worker that dies without a trace leaves its claim to expire. */
  function WorkerLost(s: State, run: nat): State
    requires run in s.work.runs
  {
    s.(work := Concluded(s.work, run, GaveUp))
  }

  /** Whether _persist_script_file_results may write this row for this revision. */
  predicate MayRecord(rows: map<nat, Row>, file: FileRow, id: nat, started: nat) {
    || file.discovered.None?
    || file.discovered == Some(id)
    || (file.discovered.value in rows && rows[file.discovered.value].started < started)
  }

  function DiscoveryPersisted(s: State, run: nat, f: nat): State
    requires run in s.work.runs && s.work.runs[run].outcome.Decided? && f in s.work.files
    requires f in s.work.runs[run].outcome.verdict.outcomes
  {
    var r := s.work.runs[run];
    var outcome := r.outcome.verdict.outcomes[f];
    var file := s.work.files[f];
    s.(work := if MayRecord(s.core.rows, file, r.revision, r.started) then
                 s.work.(files := s.work.files[f := file.(outcome := outcome, discovered := Some(r.revision))])
               else s.work,
       history := s.history.(discoveries :=
                    s.history.discoveries + [Discovery(f, r.revision, r.started, outcome)]))
  }

  // ----- One step, and runs ------------------------------------------------------------------

  ghost predicate Enabled(s: State, a: Action) {
    match a
    case BeginUpload(_, _, _, _) => s.holder.Idle? && s.site.uploaded
    case BeginIngest(_) => s.holder.Idle? && !s.site.uploaded
    case RejectContent(_) => s.holder.Storing? && s.holder.stage.Lookup?
    case LookUpRow => s.holder.Storing? && s.holder.stage.Lookup?
    case ClaimWrite => s.holder.Storing? && s.holder.stage.Decide?
    case WriteFile(p) => s.holder.Storing? && s.holder.stage.Writing? && p in s.holder.stage.todo && p in s.holder.tree
    case WriteFails(p, _) => s.holder.Storing? && s.holder.stage.Writing? && p in s.holder.tree
    case VerifyWritten =>
      s.holder.Storing? && s.holder.stage.Writing? && s.holder.stage.todo == {} && Intact(s.core.store, s.holder.tree)
    case RecordFailure => s.holder.Storing? && s.holder.stage.Failing?
    case SettleWritten => s.holder.Storing? && s.holder.stage.Verified?
    case Accept => s.holder.Accepting?
    case BeginRefresh => s.holder.Idle?
    case VerifyRefreshed =>
      s.holder.Refreshing? && s.holder.refresh.VerifySource? && Intact(s.core.store, s.holder.tree)
    case CreateRefreshed => s.holder.Refreshing? && s.holder.refresh.Create?
    case SettleRefreshed => s.holder.Refreshing? && s.holder.refresh.Settle?
    case BeginCleanup(j) => s.holder.Idle? && j in s.core.jobs && !s.core.jobs[j].finished
    case RecheckReferences => s.holder.Cleaning? && s.holder.clean.Recheck?
    case DeleteKey(p, _) => s.holder.Cleaning? && s.holder.clean.Deleting? && p in s.holder.clean.todo
    case FinishCleanup =>
      s.holder.Cleaning? && (s.holder.clean.Kept? || (s.holder.clean.Deleting? && s.holder.clean.todo == {}))
    case BeginPromotion(_, _, _) => s.holder.Idle?
    case VerifyPromoted =>
      s.holder.Promoting? && s.holder.snapshot.digest.Some? && Intact(s.core.store, s.holder.snapshot.digest.value)
    case CommitPromotion => s.holder.Promoting? && s.holder.verified
    case Deactivate(id) => s.holder.Idle? && id in s.core.rows && s.site.active == Some(id)
    case Crash => true
    case DeleteRows(_) => true
    case SaveScript(i, _) => i in s.site.scripts
    case SaveProject(_) => s.holder.Idle?
    case AddFile(p) => s.holder.Idle? && forall f :: f in s.work.files ==> s.work.files[f].path != p
    case EnableFile(f, _) => s.holder.Idle? && f in s.work.files
    case RemoveFile(f) => s.holder.Idle? && f in s.work.files
    case ClaimValidation(r, _, id) =>
      r !in s.work.runs && id in s.core.rows && Claimable(s.core.rows[id], s.work.clock)
    case ReachVerdict(r, v) => r in s.work.runs && s.work.runs[r].outcome.Working? && Consistent(v)
    case RevertClaim(r) => r in s.work.runs && s.work.runs[r].outcome.Working?
    case LoseWorker(r) => r in s.work.runs && s.work.runs[r].outcome.Working?
    case PersistDiscovery(r, f) =>
      && r in s.work.runs && s.work.runs[r].outcome.Decided? && s.work.runs[r].revision in s.core.rows
      && f in s.work.files && f in s.work.runs[r].outcome.verdict.outcomes
      && f in s.core.rows[s.work.runs[r].revision].selection
      && s.core.rows[s.work.runs[r].revision].selection[f] == s.work.files[f].path
    case Tick(_) => true
  }

  ghost function Apply(s: State, a: Action): State
    requires Enabled(s, a)
  {
    match a
    case BeginUpload(p, c, declare, once) => StartUpload(s, p, c, declare, once)
    case BeginIngest(tree) => s.(holder := Storing(tree, Selected(s.work.files), false, None, Lookup))
    case RejectContent(problems) =>
      s.(core := Insert(s.core, Row(None, s.holder.selection, Invalid, problems, map[], None, 0)), holder := Idle)
    case LookUpRow => LookedUp(s)
    case ClaimWrite => Claimed(s)
    case WriteFile(p) => Wrote(s, p)
    case WriteFails(p, junk) => WriteFailed(s, p, junk)
    case VerifyWritten => s.(holder := s.holder.(stage := Verified(s.holder.stage.id)))
    case RecordFailure => FailureRecorded(s)
    case SettleWritten => WriteSettled(s)
    case Accept => Accepted(s)
    case BeginRefresh => StartRefresh(s)
    case VerifyRefreshed => s.(holder := s.holder.(refresh := Create))
    case CreateRefreshed => RefreshCreated(s)
    case SettleRefreshed => RefreshSettled(s)
    case BeginCleanup(j) => s.(holder := Cleaning(j, s.core.jobs[j].tree, Recheck))
    case RecheckReferences => Rechecked(s)
    case DeleteKey(p, fails) => KeyDeleted(s, p, fails)
    case FinishCleanup => CleanupFinished(s)
    case BeginPromotion(id, snapshot, automatically) => s.(holder := Promoting(id, snapshot, automatically, false))
    case VerifyPromoted => s.(holder := s.holder.(verified := true))
    case CommitPromotion => Promoted(s)
    case Deactivate(id) => Deactivated(s, id)
    case Crash => Release(s)
    case DeleteRows(ids) => Deleted(s, ids)
    case SaveScript(i, stale) => s.(site := s.site.(scripts := ScriptSaved(s.site.scripts, i, stale)))
    // A full project save restores the pointers and the request from the locked row.
    case SaveProject(automatic) => s.(site := s.site.(automatic := automatic))
    case AddFile(p) => s.(work := AddedFile(s.work, p))
    case EnableFile(f, on) => s.(work := s.work.(files := s.work.files[f := s.work.files[f].(enabled := on)]))
    case RemoveFile(f) => s.(work := s.work.(files := s.work.files - {f}))
    case ClaimValidation(r, job, id) => ValidationClaimed(s, r, job, id)
    case ReachVerdict(r, v) => VerdictReached(s, r, v)
    case RevertClaim(r) => ClaimReverted(s, r)
    case LoseWorker(r) => WorkerLost(s, r)
    case PersistDiscovery(r, f) => DiscoveryPersisted(s, r, f)
    case Tick(elapsed) => s.(work := s.work.(clock := s.work.clock + elapsed))
  }

  ghost function Step(s: State, a: Action): State {
    if Enabled(s, a) then Apply(s, a) else s
  }

  /** The state a sequence of actions leads to. */
  ghost function Exec(s: State, actions: seq<Action>): State {
    if actions == [] then s else Step(Exec(s, actions[..|actions| - 1]), actions[|actions| - 1])
  }

  /** A run, one action further. */
  lemma {:induction false} ExecTo(s: State, actions: seq<Action>, n: nat, t: State)
    requires 0 < n <= |actions| && Step(Exec(s, actions[..n - 1]), actions[n - 1]) == t
    ensures Exec(s, actions[..n]) == t
  {
    assert actions[..n][..n - 1] == actions[..n - 1];
  }

  // The actions by what they can touch, for the invariants to argue by.

  /** Staging steps around the write that insert no row. */
  predicate Begins(a: Action) { a.BeginUpload? || a.BeginIngest? || a.ClaimWrite? || a.Accept? }

  /** The first steps of staging, before a key is claimed. */
  predicate Opens(a: Action) { a.BeginUpload? || a.BeginIngest? }

  /** The steps on one file's key. */
  predicate WritesKeys(a: Action) { a.WriteFile? || a.WriteFails? || a.VerifyWritten? }

  predicate Writes(a: Action) {
    a.WriteFile? || a.WriteFails? || a.VerifyWritten? || a.RecordFailure? || a.SettleWritten?
  }

  /** Steps that may insert a row. */
  predicate Inserts(a: Action) { a.RejectContent? || a.LookUpRow? || a.CreateRefreshed? }

  /** The other steps of refresh, cleanup and promotion before its commit. */
  predicate Handles(a: Action) {
    a.BeginRefresh? || a.VerifyRefreshed? || a.SettleRefreshed? || a.BeginCleanup? || a.RecheckReferences?
    || a.DeleteKey? || a.FinishCleanup? || a.BeginPromotion? || a.VerifyPromoted? || a.Crash?
  }

  predicate Validates(a: Action) { a.ClaimValidation? || a.ReachVerdict? || a.RevertClaim? || a.LoseWorker? }

  /** Edits outside the storage layer, discovery results and the clock. */
  predicate Edits(a: Action) {
    a.SaveProject? || a.AddFile? || a.EnableFile? || a.RemoveFile? || a.PersistDiscovery? || a.Tick?
  }

  /** The edits of Script File rows. */
  predicate EditsFiles(a: Action) { a.AddFile? || a.EnableFile? || a.RemoveFile? }

  /** A project that has never stored anything. */
  predicate Fresh(s: State) {
    && s.core == Core(map[], 0, map[], map[]) && s.holder == Idle
    && s.site == Site(s.site.uploaded, s.site.automatic, None, None, false, map[])
    && s.work == Work(map[], 0, map[], s.work.clock)
    && s.history == History(map[], [], [], [], None, [], [])
  }
}
