/**
 What each operation on a project comes to when nothing disturbs it: an upload, a refresh, a
 cleanup, a promotion, a verdict. The safety theorems range over all interleavings; these say that
 the operations do their work.
 */
module Progress {
  import opened Prelude
  import opened ScriptSync
  import opened Lifecycle
  import Serving
  import StorageSafety
  import Discoveries

  type Table = map<nat, Row>
  type Store = map<Key, Bytes>

  // ----- Following an operation's own steps ------------------------------------------------------

  /** Some steps of an operation, and no others, lead from one state to another. */
  ghost predicate Follows(s: State, t: State, own: Action -> bool) {
    exists actions :: OnlyOwn(actions, own) && Exec(s, actions) == t
  }

  ghost predicate OnlyOwn(actions: seq<Action>, own: Action -> bool) {
    forall k :: 0 <= k < |actions| ==> own(actions[k])
  }

  lemma {:induction false} FollowsHere(s: State, own: Action -> bool)
    ensures Follows(s, s, own)
  {
    assert OnlyOwn([], own) && Exec(s, []) == s;
  }

  lemma {:induction false} FollowsStep(s: State, t: State, a: Action, u: State, own: Action -> bool)
    requires Follows(s, t, own) && own(a) && Enabled(t, a) && u == Apply(t, a)
    ensures Follows(s, u, own)
  {
    var actions :| OnlyOwn(actions, own) && Exec(s, actions) == t;
    OneMore(s, actions, a);
    OwnMore(actions, a, own);
    assert Exec(s, actions + [a]) == u;
  }

  lemma {:induction false} OneMore(s: State, actions: seq<Action>, a: Action)
    ensures Exec(s, actions + [a]) == Step(Exec(s, actions), a)
  {
    var more := actions + [a];
    assert more[..|more| - 1] == actions && more[|more| - 1] == a;
  }

  lemma {:induction false} OwnMore(actions: seq<Action>, a: Action, own: Action -> bool)
    requires OnlyOwn(actions, own) && own(a)
    ensures OnlyOwn(actions + [a], own)
  {
  }

  // ----- Cleanup -----------------------------------------------------------------------------------

  predicate OfCleanup(a: Action) {
    a.BeginCleanup? || a.RecheckReferences? || (a.DeleteKey? && !a.fails) || a.FinishCleanup?
  }

  /** The store without some paths of one tree. */
  ghost predicate Without(before: Store, after: Store, tree: Tree, paths: set<Path>) {
    forall k: Key :: (k in after <==> k in before && !(k.tree == tree && k.path in paths))
                && (k in after ==> after[k] == before[k])
  }

  lemma {:induction false} KeysDeleted(s: State, u: State, job: nat, tree: Tree, todo: set<Path>) returns (t: State)
    requires Follows(s, u, OfCleanup) && u.holder == Cleaning(job, tree, Deleting(todo, {}))
    ensures Follows(s, t, OfCleanup) && Without(u.core.store, t.core.store, tree, todo)
    ensures t == u.(core := u.core.(store := t.core.store), holder := Cleaning(job, tree, Deleting({}, {})))
    decreases |todo|
  {
    if todo == {} {
      return u;
    }
    var p :| p in todo;
    var next := KeyDeleted(u, p, false);
    FollowsStep(s, u, DeleteKey(p, false), next, OfCleanup);
    t := KeysDeleted(s, next, job, tree, todo - {p});
  }

  /**
   A cleanup left to itself ends: with its tree still named by a row, it touches nothing; otherwise
   every key of the tree is gone and no other is.
   */
  lemma {:induction false} CleanupEnds(s: State, job: nat) returns (t: State)
    requires s.holder.Idle? && job in s.core.jobs && !s.core.jobs[job].finished
    ensures Follows(s, t, OfCleanup)
    ensures var tree := s.core.jobs[job].tree;
      && Without(s.core.store, t.core.store, tree,
                 if exists id :: id in s.core.rows && s.core.rows[id].digest == Some(tree) then {} else tree.Keys)
      && t == s.(core := s.core.(store := t.core.store, jobs := s.core.jobs[job := CleanupJob(tree, true)]))
  {
    var tree := s.core.jobs[job].tree;
    var begun := s.(holder := Cleaning(job, tree, Recheck));
    FollowsHere(s, OfCleanup);
    FollowsStep(s, s, BeginCleanup(job), begun, OfCleanup);
    FollowsStep(s, begun, RecheckReferences, Rechecked(begun), OfCleanup);
    var u := Rechecked(begun);
    if !Referenced(s.core.rows, tree) {
      u := KeysDeleted(s, u, job, tree, tree.Keys);
    }
    FollowsStep(s, u, FinishCleanup, CleanupFinished(u), OfCleanup);
    t := CleanupFinished(u);
  }

  // ----- Staging -----------------------------------------------------------------------------------

  predicate OfStaging(a: Action) {
    || a.BeginUpload? || a.BeginIngest? || a.LookUpRow? || a.ClaimWrite? || a.WriteFile? || a.VerifyWritten?
    || a.SettleWritten? || a.Accept?
  }

  /** Some paths of a tree hold the recorded bytes, and every other key is as it was. */
  ghost predicate Filled(before: Store, after: Store, tree: Tree, paths: set<Path>) {
    && (forall p :: p in paths ==> p in tree && Key(tree, p) in after && after[Key(tree, p)] == tree[p])
    && (forall k: Key :: !(k.tree == tree && k.path in paths) ==>
          (k in after <==> k in before) && (k in after ==> after[k] == before[k]))
  }

  lemma {:induction false} FilledMore(before: Store, middle: Store, after: Store, tree: Tree, p: Path, rest: set<Path>)
    requires p in tree && p !in rest && Filled(middle, after, tree, rest)
    requires Key(tree, p) in middle && middle[Key(tree, p)] == tree[p]
    requires forall k :: k != Key(tree, p) ==>
               (k in middle <==> k in before) && (k in middle ==> middle[k] == before[k])
    ensures Filled(before, after, tree, rest + {p})
  {
  }

  /** One file, whatever its key holds: at most one removal and one save. */
  lemma {:induction false} FileWritten(s: State, u: State, p: Path) returns (t: State)
    requires Follows(s, u, OfStaging) && u.holder.Storing? && u.holder.stage.Writing? && p in u.holder.stage.todo
    requires p in u.holder.tree
    ensures Follows(s, t, OfStaging)
    ensures var key := Key(u.holder.tree, p);
      && t == u.(core := u.core.(store := u.core.store[key := u.holder.tree[p]]),
                 holder := u.holder.(stage := Writing(u.holder.stage.id, u.holder.stage.todo - {p})))
  {
    var key := Key(u.holder.tree, p);
    FollowsStep(s, u, WriteFile(p), Wrote(u, p), OfStaging);
    t := Wrote(u, p);
    if key in u.core.store && u.core.store[key] != u.holder.tree[p] {
      FollowsStep(s, t, WriteFile(p), Wrote(t, p), OfStaging);
      t := Wrote(t, p);
    }
    assert t.core.store == u.core.store[key := u.holder.tree[p]];
  }

  lemma {:induction false} FilesWritten(s: State, u: State, todo: set<Path>) returns (t: State)
    requires Follows(s, u, OfStaging) && u.holder.Storing? && u.holder.stage.Writing? && u.holder.stage.todo == todo
    requires todo <= u.holder.tree.Keys
    ensures Follows(s, t, OfStaging) && Filled(u.core.store, t.core.store, u.holder.tree, todo)
    ensures t == u.(core := u.core.(store := t.core.store),
                    holder := u.holder.(stage := Writing(u.holder.stage.id, {})))
    decreases |todo|
  {
    if todo == {} {
      return u;
    }
    var p :| p in todo;
    var next := FileWritten(s, u, p);
    t := FilesWritten(s, next, todo - {p});
    FilledMore(u.core.store, next.core.store, t.core.store, u.holder.tree, p, todo - {p});
    assert todo - {p} + {p} == todo;
  }

  /** What accepting a revision settles, over the row it names. */
  ghost predicate AcceptedAs(s: State, t: State, id: nat, tree: Tree, once: bool, upload: Option<Upload>) {
    && id in t.core.rows && t.core.rows[id].digest == Some(tree) && t.holder.Idle?
    && t.site.source == Some(id) && t.site.active == s.site.active && t.site.scripts == s.site.scripts
    && (t.site.pending <==> t.core.rows[id].status != Active
                            && (once || (s.site.source == Some(id) && s.site.pending)))
    && t.history.uploads == s.history.uploads + (if upload.Some? then [upload.value] else [])
    && t.work == s.work
  }

  lemma {:induction false} RevisionAccepted(s: State, u: State, own: Action -> bool) returns (t: State)
    requires Follows(s, u, own) && own(Accept) && u.holder.Accepting? && u.holder.row in u.core.rows
    requires u.core.rows[u.holder.row].digest == Some(u.holder.tree)
    requires u.core.rows[u.holder.row].status == u.holder.seen && !Retryable(u.holder.seen)
    ensures Follows(s, t, own) && t.core == u.core
    ensures AcceptedAs(u, t, u.holder.row, u.holder.tree, u.holder.once, u.holder.upload)
  {
    FollowsStep(s, u, Accept, Accepted(u), own);
    t := Accepted(u);
  }

  /** The rows a staging leaves: one settled row for the tree and the selection, and every other as it was. */
  ghost predicate RowsStaged(before: Table, next: nat, after: Table, id: nat, tree: Tree, selection: Selection) {
    && id in after && after[id].digest == Some(tree) && after[id].selection == selection
    && (id in before || id == next)
    && (id in before && !Retryable(before[id].status) ==> after[id] == before[id])
    && (id !in before || Retryable(before[id].status) ==> after[id].status == Materialized && after[id].errors == [])
    && (forall q :: q != id ==> (q in after <==> q in before) && (q in after ==> after[q] == before[q]))
  }

  /** What is there once staging found or made its row. */
  ghost predicate RowFound(s: State, u: State, tree: Tree, selection: Selection, once: bool, upload: Option<Upload>,
                           id: nat)
  {
    && id in u.core.rows && u.core.rows[id].digest == Some(tree) && u.core.rows[id].selection == selection
    && u.holder == Storing(tree, selection, once, upload, Decide(id, u.core.rows[id].status))
    && u.site == s.site && u.work == s.work && u.history == s.history
    && u.core.store == s.core.store && u.core.jobs == s.core.jobs
    && (if id in s.core.rows then u.core == s.core
        else id == s.core.nextRow && u.core.rows == s.core.rows[id := NewRowFor(tree, selection, Staging)])
  }

  lemma {:induction false} RowLookedUp(s: State, u: State) returns (t: State, id: nat)
    requires Follows(s, u, OfStaging) && u.holder.Storing? && u.holder.stage.Lookup?
    requires u.core.nextRow !in u.core.rows
    ensures Follows(s, t, OfStaging)
    ensures RowFound(u, t, u.holder.tree, u.holder.selection, u.holder.once, u.holder.upload, id)
  {
    FollowsStep(s, u, LookUpRow, LookedUp(u), OfStaging);
    t := LookedUp(u);
    id := t.holder.stage.id;
  }

  /** A row that is not to be written again is accepted as it stands. */
  lemma {:induction false} SettledRowAccepted(s: State, u: State) returns (t: State)
    requires Follows(s, u, OfStaging) && u.holder.Storing? && u.holder.stage.Decide?
    requires var id := u.holder.stage.id;
      && id in u.core.rows && u.core.rows[id].digest == Some(u.holder.tree)
      && u.core.rows[id].status == u.holder.stage.seen && !Retryable(u.holder.stage.seen)
    requires Intact(u.core.store, u.holder.tree)
    ensures Follows(s, t, OfStaging) && t.core == u.core
    ensures AcceptedAs(u, t, u.holder.stage.id, u.holder.tree, u.holder.once, u.holder.upload)
  {
    var h := u.holder;
    var claimed := u.(holder := Accepting(h.tree, h.stage.id, h.stage.seen, h.once, h.upload));
    FollowsStep(s, u, ClaimWrite, claimed, OfStaging);
    t := RevisionAccepted(s, claimed, OfStaging);
  }

  /**
   One turn of the staging loop. A row read as stored is accepted only if its tree is found whole; one
   validation holds or rejected is accepted as it stands; one still to be written is claimed, unless
   another worker took it on since, in which case it is looked at again, or deleted it.
   */
  lemma {:induction false} ClaimTurns(s: State)
    requires s.holder.Storing? && s.holder.stage.Decide?
    ensures var h, t := s.holder, Step(s, ClaimWrite);
      var id := h.stage.id;
      var accepting := Accepting(h.tree, id, h.stage.seen, h.once, h.upload);
      && (h.stage.seen in {Materialized, Valid, Active, Retired} ==>
            t == s.(holder := if Intact(s.core.store, h.tree) then accepting else Idle))
      && (h.stage.seen in {Validating, Invalid} ==> t == s.(holder := accepting))
      && (h.stage.seen in {Staging, StorageFailed} && id !in s.core.rows ==> t == s.(holder := Idle))
      && (h.stage.seen in {Staging, StorageFailed} && id in s.core.rows ==>
            if s.core.rows[id].status in {Staging, StorageFailed} then
              t == s.(core := s.core.(rows := s.core.rows[id := s.core.rows[id].(status := Staging)]),
                      holder := h.(stage := Writing(id, h.tree.Keys)))
            else t == s.(holder := h.(stage := Decide(id, s.core.rows[id].status))))
  {
    assert Step(s, ClaimWrite) == Claimed(s);
  }

  /** One that is, is written, verified, settled and accepted. */
  lemma {:induction false} UnwrittenRowStored(s: State, u: State) returns (t: State)
    requires Follows(s, u, OfStaging) && u.holder.Storing? && u.holder.stage.Decide?
    requires var id := u.holder.stage.id;
      && id in u.core.rows && u.core.rows[id].digest == Some(u.holder.tree)
      && u.core.rows[id].status == u.holder.stage.seen && Retryable(u.holder.stage.seen)
    ensures Follows(s, t, OfStaging)
    ensures AcceptedAs(u, t, u.holder.stage.id, u.holder.tree, u.holder.once, u.holder.upload)
    ensures Filled(u.core.store, t.core.store, u.holder.tree, u.holder.tree.Keys)
    ensures var id := u.holder.stage.id;
      t.core == u.core.(store := t.core.store,
                        rows := u.core.rows[id := u.core.rows[id].(status := Materialized, errors := [])])
  {
    var h, id := u.holder, u.holder.stage.id;
    var claimed := u.(core := u.core.(rows := u.core.rows[id := u.core.rows[id].(status := Staging)]),
                      holder := h.(stage := Writing(id, h.tree.Keys)));
    FollowsStep(s, u, ClaimWrite, claimed, OfStaging);
    var written := FilesWritten(s, claimed, h.tree.Keys);
    t := WrittenRowAccepted(s, written);
    assert u.core.rows[id := u.core.rows[id].(status := Staging)][id := t.core.rows[id]]
        == u.core.rows[id := t.core.rows[id]];
  }

  lemma {:induction false} WrittenRowAccepted(s: State, u: State) returns (t: State)
    requires Follows(s, u, OfStaging) && u.holder.Storing? && u.holder.stage.Writing? && u.holder.stage.todo == {}
    requires Intact(u.core.store, u.holder.tree)
    requires var id := u.holder.stage.id;
      id in u.core.rows && u.core.rows[id].digest == Some(u.holder.tree) && u.core.rows[id].status == Staging
    ensures Follows(s, t, OfStaging)
    ensures AcceptedAs(u, t, u.holder.stage.id, u.holder.tree, u.holder.once, u.holder.upload)
    ensures var id := u.holder.stage.id;
      t.core == u.core.(rows := u.core.rows[id := u.core.rows[id].(status := Materialized, errors := [])])
  {
    var h, id := u.holder, u.holder.stage.id;
    var verified := u.(holder := h.(stage := Verified(id)));
    FollowsStep(s, u, VerifyWritten, verified, OfStaging);
    FollowsStep(s, verified, SettleWritten, WriteSettled(verified), OfStaging);
    t := RevisionAccepted(s, WriteSettled(verified), OfStaging);
  }

  /** What a successful staging of a tree leaves. */
  ghost predicate StagedAndAccepted(s: State, t: State, tree: Tree, selection: Selection, once: bool,
                                    upload: Option<Upload>)
  {
    && t.site.source.Some? && AcceptedAs(s, t, t.site.source.value, tree, once, upload)
    && RowsStaged(s.core.rows, s.core.nextRow, t.core.rows, t.site.source.value, tree, selection)
    && Intact(t.core.store, tree) && t.core.jobs == s.core.jobs
    && (forall k: Key :: k.tree != tree ==>
          (k in t.core.store <==> k in s.core.store) && (k in t.core.store ==> t.core.store[k] == s.core.store[k]))
  }

  lemma {:induction false} TreeStaged(s: State, u: State) returns (t: State)
    requires StorageSafety.SoundState(u) && Follows(s, u, OfStaging) && u.holder.Storing? && u.holder.stage.Lookup?
    ensures Follows(s, t, OfStaging)
    ensures StagedAndAccepted(u, t, u.holder.tree, u.holder.selection, u.holder.once, u.holder.upload)
  {
    var found, id := RowLookedUp(s, u);
    if Retryable(found.core.rows[id].status) {
      t := UnwrittenRowStored(s, found);
      StoredRows(u, found, t, id);
    } else {
      assert id in u.core.rows && Usable(u.core.rows[id]);
      t := SettledRowAccepted(s, found);
    }
  }

  lemma {:induction false} StoredRows(u: State, found: State, t: State, id: nat)
    requires u.holder.Storing? && RowFound(u, found, u.holder.tree, u.holder.selection, u.holder.once, u.holder.upload,
                                           id)
    requires Retryable(found.core.rows[id].status) && u.core.nextRow !in u.core.rows
    requires Filled(found.core.store, t.core.store, u.holder.tree, u.holder.tree.Keys)
    requires t.core == found.core.(store := t.core.store,
               rows := found.core.rows[id := found.core.rows[id].(status := Materialized, errors := [])])
    ensures RowsStaged(u.core.rows, u.core.nextRow, t.core.rows, id, u.holder.tree, u.holder.selection)
    ensures Intact(t.core.store, u.holder.tree) && t.core.jobs == u.core.jobs
  {
  }

  // ----- Taking turns ---------------------------------------------------------------------------------

  /** What needs the project lock free: every operation's first step, and the edits. */
  predicate TakesLock(a: Action) {
    || a.BeginUpload? || a.BeginIngest? || a.BeginRefresh? || a.BeginCleanup? || a.BeginPromotion? || a.Deactivate?
    || a.SaveProject? || a.AddFile? || a.EnableFile? || a.RemoveFile?
  }

  /** An operation starts only on a free lock, and each later step only of its holder and in its turn. */
  lemma {:induction false} StepsWaitTheirTurn(s: State, a: Action)
    requires Enabled(s, a)
    ensures TakesLock(a) ==> s.holder == Idle
    ensures (a.BeginUpload? ==> s.site.uploaded) && (a.BeginIngest? ==> !s.site.uploaded)
    ensures a.LookUpRow? || a.RejectContent? ==> s.holder.Storing? && s.holder.stage == Lookup
    ensures a.ClaimWrite? ==> s.holder.Storing? && s.holder.stage.Decide?
    ensures a.WriteFile? ==> s.holder.Storing? && s.holder.stage.Writing? && a.path in s.holder.stage.todo
    ensures a.VerifyWritten? ==>
              s.holder.Storing? && s.holder.stage.Writing? && s.holder.stage.todo == {}
                && Intact(s.core.store, s.holder.tree)
    ensures a.RecordFailure? ==> s.holder.Storing? && s.holder.stage.Failing?
    ensures a.SettleWritten? ==> s.holder.Storing? && s.holder.stage.Verified?
    ensures a.Accept? ==> s.holder.Accepting?
    ensures a.VerifyRefreshed? ==>
              s.holder.Refreshing? && s.holder.refresh == VerifySource && Intact(s.core.store, s.holder.tree)
    ensures a.CreateRefreshed? ==> s.holder.Refreshing? && s.holder.refresh == Create
    ensures a.SettleRefreshed? ==> s.holder.Refreshing? && s.holder.refresh.Settle?
    ensures a.BeginCleanup? ==> a.job in s.core.jobs && !s.core.jobs[a.job].finished
    ensures a.RecheckReferences? ==> s.holder.Cleaning? && s.holder.clean == Recheck
    ensures a.DeleteKey? ==> s.holder.Cleaning? && s.holder.clean.Deleting? && a.path in s.holder.clean.todo
    ensures a.FinishCleanup? ==>
              s.holder.Cleaning? && (s.holder.clean == Kept || (s.holder.clean.Deleting? && s.holder.clean.todo == {}))
    ensures a.VerifyPromoted? ==>
              s.holder.Promoting? && s.holder.snapshot.digest.Some?
                && Intact(s.core.store, s.holder.snapshot.digest.value)
    ensures a.CommitPromotion? ==> s.holder.Promoting? && s.holder.verified
    ensures a.Deactivate? ==> a.row in s.core.rows && s.site.active == Some(a.row)
  {
  }

  // ----- Declarations --------------------------------------------------------------------------------

  /** No two Script Files of the project declare one path, and identifiers are not reused. */
  ghost predicate FilesDistinct(work: Work) {
    && (forall f :: f in work.files ==> f < work.nextFile)
    && (forall f, g :: f in work.files && g in work.files && work.files[f].path == work.files[g].path ==> f == g)
  }

  /** Files keep their paths, and at most go away. */
  ghost predicate PathsKept(before: Work, after: Work) {
    && after.nextFile == before.nextFile && after.files.Keys <= before.files.Keys
    && (forall f :: f in after.files ==> after.files[f].path == before.files[f].path)
  }

  lemma {:induction false} FileEditsKeepPaths(s: State, a: Action)
    requires a.EnableFile? || a.RemoveFile? || a.PersistDiscovery? || a.DeleteRows?
    ensures PathsKept(s.work, Step(s, a).work)
  {
  }

  lemma {:induction false} AddingKeepsDistinct(s: State, a: Action)
    requires FilesDistinct(s.work) && (a.AddFile? || a.BeginUpload?)
    ensures FilesDistinct(Step(s, a).work)
  {
    if Enabled(s, a) {
      if a.BeginUpload? {
        assert FilesDistinct(Declared(s.work, a.path));
      } else {
        assert Step(s, a).work == AddedFile(s.work, a.path);
      }
    }
  }

  /** In every reachable state no two declarations share a path. */
  lemma {:induction false} DeclarationsStayDistinct(s: State, actions: seq<Action>)
    requires Fresh(s)
    ensures FilesDistinct(Exec(s, actions).work)
  {
    if actions != [] {
      var t, a := Exec(s, actions[..|actions| - 1]), actions[|actions| - 1];
      DeclarationsStayDistinct(s, actions[..|actions| - 1]);
      if a.AddFile? || a.BeginUpload? {
        AddingKeepsDistinct(t, a);
      } else if a.EnableFile? || a.RemoveFile? || a.PersistDiscovery? || a.DeleteRows? {
        FileEditsKeepPaths(t, a);
      } else {
        Discoveries.FilesUntouched(t, a);
      }
    }
  }

  // ----- The operations that stage -----------------------------------------------------------------

  /**
   The tree the accepted source, or failing that the newest stored row, gives; none stored yet gives
   the empty one.
   */
  ghost predicate IsCurrent(s: State, tree: Tree) {
    && (s.site.source.Some? && s.site.source.value in s.core.rows && Usable(s.core.rows[s.site.source.value]) ==>
          s.core.rows[s.site.source.value].digest == Some(tree))
    && (!(s.site.source.Some? && s.site.source.value in s.core.rows && Usable(s.core.rows[s.site.source.value])) ==>
          if exists id :: id in s.core.rows && Usable(s.core.rows[id]) then
            exists id :: NewestRow(s.core.rows, id) && s.core.rows[id].digest == Some(tree)
          else tree == map[])
  }

  ghost predicate NewestRow(rows: Table, id: nat) {
    id in rows && Usable(rows[id]) && forall q :: q in rows && q > id ==> !Usable(rows[q])
  }

  lemma {:induction false} NewestIsNewest(rows: Table, below: nat)
    requires NewestUsable(rows, below).Some?
    ensures var id := NewestUsable(rows, below).value;
      id < below && forall q :: q in rows && id < q < below ==> !Usable(rows[q])
  {
    if !(below - 1 in rows && Usable(rows[below - 1])) {
      NewestIsNewest(rows, below - 1);
    }
  }

  lemma {:induction false} CurrentIsCurrent(s: State)
    requires forall id :: id in s.core.rows ==> id < s.core.nextRow
    ensures IsCurrent(s, CurrentTree(s.core, s.site.source))
  {
    var newest := NewestUsable(s.core.rows, s.core.nextRow);
    if newest.Some? {
      NewestIsNewest(s.core.rows, s.core.nextRow);
      assert NewestRow(s.core.rows, newest.value);
    }
  }

  /** The declarations a path's upload leaves when it declares the path: that one enabled, the others as they were. */
  ghost predicate Declares(before: map<nat, FileRow>, after: map<nat, FileRow>, path: Path) {
    exists f :: DeclaresAt(before, after, path, f)
  }

  ghost predicate DeclaresAt(before: map<nat, FileRow>, after: map<nat, FileRow>, path: Path, f: nat) {
    && f in after && after[f].path == path && after[f].enabled
    && (f in before ==> before[f].path == path && after[f] == before[f].(enabled := true))
    && (f !in before ==> after[f].discovered == None && forall g :: g in before ==> before[g].path != path)
    && (forall g :: g != f ==> (g in after <==> g in before) && (g in after ==> after[g] == before[g]))
  }

  lemma {:induction false} DeclaredDeclares(work: Work, path: Path)
    requires work.nextFile !in work.files
    ensures Declares(work.files, Declared(work, path).files, path)
  {
    var found := FileOf(work.files, path);
    assert DeclaresAt(work.files, Declared(work, path).files, path, if found.Some? then found.value else work.nextFile);
  }

  /**
   From any reachable state at rest, an upload left to itself is stored and accepted: the current
   tree with the file merged in becomes the accepted source under the declarations enabled then,
   every key of it holding its bytes; no other row and no other tree's key changes.
   */
  lemma {:induction false} UploadIsAccepted(origin: State, earlier: seq<Action>, path: Path, content: Bytes,
                                            declare: bool, once: bool) returns (t: State, tree: Tree)
    requires Fresh(origin) && Exec(origin, earlier).holder.Idle? && Exec(origin, earlier).site.uploaded
    ensures var s := Exec(origin, earlier); var work := if declare then Declared(s.work, path) else s.work;
      && Follows(s, t, OfStaging) && IsCurrent(s, tree)
      && StagedAndAccepted(s.(work := work), t, tree[path := content], Selected(work.files), once,
                           Some(Upload(path, content)))
      && (declare ==> Declares(s.work.files, work.files, path))
  {
    var s := Exec(origin, earlier);
    StorageSafety.RunSound(origin, earlier);
    DeclarationsStayDistinct(origin, earlier);
    tree := CurrentTree(s.core, s.site.source);
    CurrentIsCurrent(s);
    if declare { DeclaredDeclares(s.work, path); }
    var u := StartUpload(s, path, content, declare, once);
    FollowsHere(s, OfStaging);
    FollowsStep(s, s, BeginUpload(path, content, declare, once), u, OfStaging);
    StorageSafety.StepSound(s, BeginUpload(path, content, declare, once));
    assert Step(s, BeginUpload(path, content, declare, once)) == u;
    t := TreeStaged(s, u);
  }

  /** With the current source damaged in the store, an upload declares its path and is refused. */
  lemma {:induction false} DamagedSourceRefuses(s: State, path: Path, content: Bytes, declare: bool, once: bool)
    requires s.holder.Idle? && s.site.uploaded && LatestStored(s.core, s.site.source).Some?
    requires !Intact(s.core.store, CurrentTree(s.core, s.site.source))
    ensures var t := Step(s, BeginUpload(path, content, declare, once));
      t == s.(work := t.work) && t.work == if declare then Declared(s.work, path) else s.work
  {
  }

  predicate OfRefresh(a: Action) {
    a.BeginRefresh? || a.VerifyRefreshed? || a.CreateRefreshed? || a.SettleRefreshed? || a.Accept?
  }

  /**
   A refresh left to itself accepts the current tree under the declarations enabled now, writing
   nothing to the store.
   */
  lemma {:induction false} RefreshIsAccepted(origin: State, earlier: seq<Action>) returns (t: State, tree: Tree)
    requires Fresh(origin) && Exec(origin, earlier).holder.Idle?
    requires exists id :: id in Exec(origin, earlier).core.rows && Usable(Exec(origin, earlier).core.rows[id])
    ensures var s := Exec(origin, earlier);
      && Follows(s, t, OfRefresh) && IsCurrent(s, tree)
      && StagedAndAccepted(s, t, tree, Selected(s.work.files), false, None) && t.core.store == s.core.store
  {
    var s := Exec(origin, earlier);
    StorageSafety.RunSound(origin, earlier);
    tree := CurrentTree(s.core, s.site.source);
    CurrentIsCurrent(s);
    var latest := LatestStored(s.core, s.site.source);
    assert Intact(s.core.store, tree);
    var created := s.(holder := Refreshing(tree, Selected(s.work.files), Create));
    FollowsHere(s, OfRefresh);
    FollowsStep(s, s, BeginRefresh, StartRefresh(s), OfRefresh);
    FollowsStep(s, StartRefresh(s), VerifyRefreshed, created, OfRefresh);
    t := RefreshRow(s, created);
  }

  lemma {:induction false} RefreshRow(s: State, u: State) returns (t: State)
    requires StorageSafety.SoundState(u) && Follows(s, u, OfRefresh)
    requires u.holder.Refreshing? && u.holder.refresh.Create? && Intact(u.core.store, u.holder.tree)
    ensures Follows(s, t, OfRefresh) && t.core.store == u.core.store
    ensures StagedAndAccepted(u, t, u.holder.tree, u.holder.selection, false, None)
  {
    var found := FindRow(u.core.rows, u.holder.tree, u.holder.selection);
    var made := RefreshCreated(u);
    FollowsStep(s, u, CreateRefreshed, made, OfRefresh);
    if found.Some? && Retryable(u.core.rows[found.value].status) {
      FollowsStep(s, made, SettleRefreshed, RefreshSettled(made), OfRefresh);
      made := RefreshSettled(made);
    }
    t := RevisionAccepted(s, made, OfRefresh);
  }

  // ----- Promotion ---------------------------------------------------------------------------------

  predicate OfPromotion(a: Action) { a.BeginPromotion? || a.VerifyPromoted? || a.CommitPromotion? }

  /** A revision that may be served: by its status, its content, and for an automatic promotion by the policy. */
  ghost predicate Servable(s: State, id: nat, automatic: bool) {
    && id in s.core.rows && s.core.rows[id].digest.Some? && Intact(s.core.store, s.core.rows[id].digest.value)
    && (s.core.rows[id].status in {Valid, Retired} || s.site.active == Some(id))
    && (automatic ==> s.site.source == Some(id) && (s.site.pending || s.site.automatic)
                      && s.core.rows[id].selection
                         == map f | f in s.work.files && s.work.files[f].enabled :: s.work.files[f].path)
  }

  /**
   A promotion left to itself serves its revision: it becomes the one ACTIVE row and what was active
   retires, exactly its recorded Scripts are published, and a request waiting on it is spent.
   */
  lemma {:induction false} PromotionServes(s: State, id: nat, automatic: bool) returns (t: State)
    requires Serving.Coherent(s) && s.holder.Idle? && Servable(s, id, automatic)
    ensures Follows(s, t, OfPromotion) && t.holder.Idle? && t.work == s.work && t.core.store == s.core.store
    ensures t.site.active == Some(id) && t.site.source == s.site.source
    ensures t.site.pending <==> s.site.pending && s.site.source != Some(id)
    ensures t.core.rows.Keys == s.core.rows.Keys
    ensures forall q :: q in s.core.rows ==>
              t.core.rows[q] == s.core.rows[q].(status :=
                if q == id then Active else if s.core.rows[q].status == Active then Retired else s.core.rows[q].status)
    ensures Publishes(t.site.scripts, s.core.rows[id].published, id)
  {
    t := PromotionCommits(s, id, automatic);
    PromotedRows(s.core.rows, s.core.nextRow, s.site.active, id);
    SyncConverges(s.site.scripts, s.core.rows[id].published, id);
  }

  /** Whether a revision still is what a promotion verified, and may be served. */
  ghost predicate StillServable(s: State)
    requires s.holder.Promoting?
  {
    var h := s.holder;
    && h.row in s.core.rows
    && (h.automatic ==> s.site.source == Some(h.row) && (s.site.pending || s.site.automatic)
                        && s.core.rows[h.row].selection == Selected(s.work.files))
    && s.core.rows[h.row].digest == h.snapshot.digest && s.core.rows[h.row].digest.Some?
    && s.core.rows[h.row].selection == h.snapshot.selection
    && s.core.rows[h.row].published == h.snapshot.published
    && (s.core.rows[h.row].status in {Valid, Retired}
        || (s.core.rows[h.row].status == Active && s.site.active == Some(h.row)))
  }

  /** The commit serves the revision exactly when it is, and otherwise rolls everything back. */
  lemma {:induction false} CommitsExactly(s: State)
    requires Serving.Coherent(s) && s.holder.Promoting? && s.holder.verified
    ensures var t := Step(s, CommitPromotion);
      if StillServable(s) then
        && t.holder == Idle && t.site.active == Some(s.holder.row)
        && t.site.scripts == Synced(s.site.scripts, s.core.rows[s.holder.row].published, s.holder.row)
        && (if s.site.source == Some(s.holder.row) && s.site.pending then
              !t.site.pending && t.history.consumed
                == s.history.consumed + (if s.history.request.Some? then [s.history.request.value] else [])
            else t.site.pending == s.site.pending && t.history.consumed == s.history.consumed)
      else t == s.(holder := Idle)
  {
    assert Step(s, CommitPromotion) == Promoted(s);
    assert Promotable(s) <==> StillServable(s);
  }

  /** The row a promotion takes its snapshot of, and the state its commit meets. */
  function AtCommit(s: State, id: nat, automatic: bool): State
    requires id in s.core.rows
  {
    s.(holder := Promoting(id, s.core.rows[id], automatic, true))
  }

  lemma {:induction false} PromotionVerifies(s: State, id: nat, automatic: bool)
    requires s.holder.Idle? && Servable(s, id, automatic)
    ensures Follows(s, AtCommit(s, id, automatic), OfPromotion)
  {
    var begun := s.(holder := Promoting(id, s.core.rows[id], automatic, false));
    FollowsHere(s, OfPromotion);
    FollowsStep(s, s, BeginPromotion(id, s.core.rows[id], automatic), begun, OfPromotion);
    FollowsStep(s, begun, VerifyPromoted, AtCommit(s, id, automatic), OfPromotion);
  }

  lemma {:induction false} ServableIsPromotable(s: State, id: nat, automatic: bool)
    requires Serving.Coherent(s) && Servable(s, id, automatic)
    ensures Promotable(AtCommit(s, id, automatic))
  {
  }

  lemma {:induction false} PromotionCommits(s: State, id: nat, automatic: bool) returns (t: State)
    requires Serving.Coherent(s) && s.holder.Idle? && Servable(s, id, automatic)
    ensures Follows(s, t, OfPromotion) && t.holder.Idle? && t.work == s.work && t.core.store == s.core.store
    ensures t.site.active == Some(id) && t.site.source == s.site.source
    ensures t.site.pending <==> s.site.pending && s.site.source != Some(id)
    ensures t.site.scripts == Synced(s.site.scripts, s.core.rows[id].published, id)
    ensures t.core.rows == if Lifecycle.Serving(s, id) then s.core.rows else Repointed(s.core.rows, s.site.active, id)
  {
    var u := AtCommit(s, id, automatic);
    PromotionVerifies(s, id, automatic);
    ServableIsPromotable(s, id, automatic);
    t := Promoted(u);
    FollowsStep(s, u, CommitPromotion, t, OfPromotion);
  }

  lemma {:induction false} PromotedRows(rows: Table, next: nat, active: Option<nat>, id: nat)
    requires Serving.PointerSound(rows, next, active) && id in rows
    ensures var after := if rows[id].status == Active && active == Some(id) then rows else Repointed(rows, active, id);
      && after.Keys == rows.Keys
      && forall q :: q in rows ==>
           after[q] == rows[q].(status :=
             if q == id then Active else if rows[q].status == Active then Retired else rows[q].status)
  {
  }

  // ----- What goes wrong, and what is deleted ---------------------------------------------------------

  /**
   A write that fails ends the staging: its row, when it still waits to be written, is marked failed
   and stays to be written again; nothing is accepted; and at most the key at hand, when it was
   free, holds something.
   */
  lemma {:induction false} FailedWriteIsRecorded(s: State, path: Path, junk: Option<Bytes>)
    requires s.holder.Storing? && s.holder.stage.Writing? && path in s.holder.tree
    requires s.holder.stage.id in s.core.rows && s.core.rows[s.holder.stage.id].status == Staging
    ensures var id, key := s.holder.stage.id, Key(s.holder.tree, path);
      var t := Step(Step(s, WriteFails(path, junk)), RecordFailure);
      && t.holder == Idle && t.site == s.site && t.work == s.work && t.history == s.history
      && t.core.rows == s.core.rows[id :=
           s.core.rows[id].(status := StorageFailed, errors := ["storage_write_failed"])]
      && t.core.jobs == s.core.jobs
      && t.core.store == if junk.Some? && key !in s.core.store then s.core.store[key := junk.value] else s.core.store
  {
    var failing := WriteFailed(s, path, junk);
    assert Step(s, WriteFails(path, junk)) == failing;
    assert Step(failing, RecordFailure) == FailureRecorded(failing);
  }

  /** Content refused as it is staged is recorded: a new invalid row without a tree, carrying the problems. */
  lemma {:induction false} RejectionIsRecorded(s: State, problems: seq<string>)
    requires s.holder.Storing? && s.holder.stage.Lookup?
    ensures var t := Step(s, RejectContent(problems));
      && t.holder == Idle && t.site == s.site && t.work == s.work && t.history == s.history
      && t.core == s.core.(nextRow := s.core.nextRow + 1,
                           rows := s.core.rows[s.core.nextRow :=
                             Row(None, s.holder.selection, Invalid, problems, map[], None, 0)])
  {
  }

  /** A cleanup that could not delete a key gives the lock back and stays on record, to be run again. */
  lemma {:induction false} FailedCleanupStays(s: State, path: Path)
    requires s.holder.Cleaning? && s.holder.clean.Deleting? && path in s.holder.clean.todo
    ensures var t := Step(s, DeleteKey(path, true));
      && t.core == s.core && t.holder.Cleaning? && t.holder.clean.Deleting?
      && t.holder.clean.todo == s.holder.clean.todo - {path} && path in t.holder.clean.failed
    ensures s.holder.clean.todo == {path} ==>
              Step(Step(s, DeleteKey(path, true)), FinishCleanup) == s.(holder := Idle)
  {
    var t := KeyDeleted(s, path, true);
    assert Step(s, DeleteKey(path, true)) == t;
    if s.holder.clean.todo == {path} {
      assert Step(t, FinishCleanup) == CleanupFinished(t);
    }
  }

  /** A pointer to a deleted row clears, any other stands. */
  ghost predicate Points(before: Option<nat>, after: Option<nat>, ids: set<nat>) {
    after == if before.Some? && before.value in ids then None else before
  }

  /**
   Deleting rows: exactly they go, pointers to them clear, a cleanup is recorded for each tree no
   surviving row names, and nothing leaves the store.
   */
  lemma {:induction false} DeletionIsExact(s: State, ids: set<nat>)
    requires forall j :: j in s.core.jobs ==> j !in s.core.rows
    ensures var t := Step(s, DeleteRows(ids));
      && t.core.store == s.core.store && t.holder == s.holder && t.history == s.history
      && (forall id :: id in t.core.rows <==> id in s.core.rows && id !in ids)
      && (forall id :: id in t.core.rows ==> t.core.rows[id] == s.core.rows[id])
      && (forall j :: j in s.core.jobs ==> j in t.core.jobs && t.core.jobs[j] == s.core.jobs[j])
      && (forall j :: j in t.core.jobs && j !in s.core.jobs <==>
            && j in s.core.rows && j in ids && s.core.rows[j].digest.Some? && s.core.rows[j].digest.value != map[]
            && forall q :: q in t.core.rows ==> t.core.rows[q].digest != s.core.rows[j].digest)
      && (forall j :: j in t.core.jobs && j !in s.core.jobs ==>
            j in s.core.rows && Some(t.core.jobs[j].tree) == s.core.rows[j].digest && !t.core.jobs[j].finished)
      && Points(s.site.active, t.site.active, ids) && Points(s.site.source, t.site.source, ids)
      && t.site.scripts.Keys == s.site.scripts.Keys && t.work.files.Keys == s.work.files.Keys
  {
    assert Step(s, DeleteRows(ids)) == Deleted(s, ids);
    var t := Deleted(s, ids);
    forall j | j in s.core.rows && s.core.rows[j].digest.Some?
      ensures Referenced(t.core.rows, s.core.rows[j].digest.value) <==>
                exists q :: q in t.core.rows && t.core.rows[q].digest == s.core.rows[j].digest
    {
    }
  }

  /** Their marks on Scripts and Script Files clear with them, and nothing else of those moves. */
  lemma {:induction false} DeletionClearsMarks(s: State, ids: set<nat>)
    ensures var t := Step(s, DeleteRows(ids));
      && (forall i :: i in s.site.scripts ==>
            && i in t.site.scripts
            && Points(s.site.scripts[i].lastSeen, t.site.scripts[i].lastSeen, ids)
            && t.site.scripts[i] == s.site.scripts[i].(lastSeen := t.site.scripts[i].lastSeen))
      && (forall f :: f in s.work.files ==>
            && f in t.work.files
            && Points(s.work.files[f].discovered, t.work.files[f].discovered, ids)
            && t.work.files[f] == s.work.files[f].(discovered := t.work.files[f].discovered))
  {
    assert Step(s, DeleteRows(ids)) == Deleted(s, ids);
  }

  // ----- Edits ---------------------------------------------------------------------------------------------

  /** A full save of a Script keeps what publication owns, and one of the project its pointers and its request. */
  lemma {:induction false} SavesAreNarrow(s: State, i: Identity, stale: Script, automatic: bool)
    requires i in s.site.scripts
    ensures var row := s.site.scripts[i];
      Step(s, SaveScript(i, stale))
      == s.(site := s.site.(scripts := s.site.scripts[i :=
              Script(row.published, row.retired, row.lastSeen, stale.enabled, stale.overrides)]))
    ensures s.holder.Idle? ==> Step(s, SaveProject(automatic)) == s.(site := s.site.(automatic := automatic))
  {
    assert Step(s, SaveScript(i, stale)).site.scripts == ScriptSaved(s.site.scripts, i, stale);
  }

  /** A path is declared once, by a new file that is enabled and that discovery has not reached. */
  lemma {:induction false} DeclaringNeedsItUndeclared(s: State, p: Path)
    requires s.holder.Idle?
    ensures var t := Step(s, AddFile(p));
      if exists g :: g in s.work.files && s.work.files[g].path == p then t == s
      else t == s.(work := s.work.(nextFile := s.work.nextFile + 1,
                   files := s.work.files[s.work.nextFile := FileRow(p, true, "pending", None)]))
  {
    assert Enabled(s, AddFile(p)) <==> !exists g :: g in s.work.files && s.work.files[g].path == p;
  }

  /** Switching a file on or off keeps the rest of it, and removing it keeps the others. */
  lemma {:induction false} EditsAreNarrow(s: State, f: nat, on: bool)
    requires s.holder.Idle? && f in s.work.files
    ensures var file := s.work.files[f];
      Step(s, EnableFile(f, on))
      == s.(work := s.work.(files := s.work.files[f := FileRow(file.path, on, file.outcome, file.discovered)]))
    ensures Step(s, RemoveFile(f)) == s.(work := s.work.(files := s.work.files - {f}))
  {
  }

  lemma {:induction false} CrashReleases(s: State)
    ensures Step(s, Crash) == s.(holder := Idle)
  {
  }
}
