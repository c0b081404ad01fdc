/**
 No upload is lost: absent deletions the accepted source tree is always the fold, in lock order,
 of the successful uploads over the tree it started from.
 */
module Uploads {
  import opened Prelude
  import opened Lifecycle
  import opened Effects
  import OneShot
  import Serving
  import StorageSafety

  /** The uploads merged over a tree, first to last. */
  ghost function Merged(base: Tree, uploads: seq<Upload>): Tree {
    if uploads == [] then base
    else
      var last := uploads[|uploads| - 1];
      Merged(base, uploads[..|uploads| - 1])[last.path := last.content]
  }

  /** The uploads accepted since a point of the history. */
  function Since(history: History, from: nat): seq<Upload>
    requires from <= |history.uploads|
  {
    history.uploads[from..]
  }

  ghost function Joined(tree: Tree, upload: Option<Upload>): Tree {
    if upload.Some? then tree[upload.value.path := upload.value.content] else tree
  }

  ghost predicate Holds(rows: Table, id: nat, tree: Tree) {
    id in rows && rows[id].digest == Some(tree)
  }

  /** The accepted source is stored and holds exactly the merged tree. */
  ghost predicate Anchored(rows: Table, source: Option<nat>, merged: Tree) {
    source.Some? && Holds(rows, source.value, merged) && Usable(rows[source.value])
  }

  /**
   Nothing is accepted, so the newest stored revision gives the current tree. It is the merged
   tree, unless the revision about to be accepted has come to be the newest.
   */
  ghost predicate Unaccepted(core: Core, source: Option<nat>, holder: Holder, merged: Tree) {
    && source.None?
    && (LatestTree(core) == merged || (holder.Accepting? && LatestTree(core) == holder.tree))
  }

  /** The tree of the newest stored revision. */
  ghost function LatestTree(core: Core): Tree { CurrentTree(core, None) }

  /** The operation holding the lock works on the merged tree, plus the upload it carries. */
  ghost predicate HolderTracks(rows: Table, holder: Holder, merged: Tree) {
    match holder
    case Storing(tree, _, _, upload, stage) =>
      upload.Some? && tree == Joined(merged, upload) && StageTracks(rows, tree, stage)
    case Refreshing(tree, _, refresh) => tree == merged && (refresh.Settle? ==> Holds(rows, refresh.id, tree))
    case Accepting(tree, id, seen, _, upload) =>
      tree == Joined(merged, upload) && Holds(rows, id, tree) && Usable(rows[id]) && !Retryable(seen)
    case _ => true
  }

  ghost predicate StageTracks(rows: Table, tree: Tree, stage: StagePhase) {
    match stage
    case Lookup => true
    case Decide(id, seen) => Holds(rows, id, tree) && (!Retryable(seen) ==> Usable(rows[id]))
    case Writing(id, _) => Holds(rows, id, tree) && rows[id].status != StorageFailed
    case Verified(id) => Holds(rows, id, tree) && rows[id].status != StorageFailed
    case Failing(id) => Holds(rows, id, tree)
  }

  ghost predicate Tracks(s: State, merged: Tree) {
    && s.site.uploaded
    && (Anchored(s.core.rows, s.site.source, merged) || Unaccepted(s.core, s.site.source, s.holder, merged))
    && HolderTracks(s.core.rows, s.holder, merged)
  }

  /** With nothing about to be accepted, or once anything was, the current tree is the merged one. */
  lemma {:induction false} TrackedTree(s: State, merged: Tree)
    requires Tracks(s, merged) && (!s.holder.Accepting? || s.site.source.Some?)
    ensures CurrentTree(s.core, s.site.source) == merged
  {
  }

  // ----- Steps that accept nothing ---------------------------------------------------------------

  ghost predicate UsabilityKept(before: Table, after: Table) {
    && after.Keys == before.Keys
    && (forall id :: id in before ==>
          && after[id].digest == before[id].digest
          && (Usable(after[id]) <==> Usable(before[id]))
          && (after[id].status == StorageFailed <==> before[id].status == StorageFailed))
  }

  /** Below an identifier the same rows are usable, with the same trees. */
  ghost predicate SameUsable(before: Table, after: Table, below: nat) {
    forall id :: id < below ==>
      && (id in before && Usable(before[id]) <==> id in after && Usable(after[id]))
      && (id in before && Usable(before[id]) ==> after[id].digest == before[id].digest)
  }

  lemma {:induction false} NewestStays(before: Table, after: Table, below: nat)
    requires SameUsable(before, after, below)
    ensures NewestUsable(after, below) == NewestUsable(before, below)
    ensures NewestUsable(after, below).Some? ==> NewestUsable(after, below).value < below
  {
    if below > 0 {
      assert SameUsable(before, after, below - 1);
      NewestStays(before, after, below - 1);
    }
  }

  /** When one row becomes usable, the newest usable row is the one that was, or that one. */
  lemma {:induction false} NewestGains(before: Table, id: nat, row: Row, below: nat)
    requires id in before && !Usable(before[id])
    ensures NewestUsable(before[id := row], below) in {NewestUsable(before, below), Some(id)}
    ensures NewestUsable(before[id := row], below) != Some(id) ==>
              NewestUsable(before[id := row], below) == NewestUsable(before, below)
  {
    if below > 0 {
      NewestGains(before, id, row, below - 1);
    }
  }

  lemma {:induction false} LatestStays(before: Core, after: Core)
    requires after.nextRow == before.nextRow && SameUsable(before.rows, after.rows, before.nextRow)
    ensures LatestTree(after) == LatestTree(before)
  {
    NewestStays(before.rows, after.rows, before.nextRow);
  }

  /** A row that is not usable joins without being noticed. */
  lemma {:induction false} LatestIgnores(before: Core, after: Core, row: Row)
    requires after.nextRow == before.nextRow + 1 && after.rows == before.rows[before.nextRow := row] && !Usable(row)
    ensures LatestTree(after) == LatestTree(before)
  {
    NewestStays(before.rows, after.rows, before.nextRow);
  }

  /** The crash that loses the lock between settling an upload as the newest revision and accepting it. */
  ghost predicate LosesFirst(s: State, a: Action) {
    && a.Crash? && s.holder.Accepting? && s.site.source.None? && s.holder.upload.Some?
    && LatestTree(s.core) == s.holder.tree
  }

  lemma {:induction false} QuietTracks(s: State, t: State, merged: Tree)
    requires Tracks(s, merged) && t.core.nextRow == s.core.nextRow && UsabilityKept(s.core.rows, t.core.rows)
    requires t.site.source == s.site.source && t.site.uploaded == s.site.uploaded
    requires t.holder == s.holder
             || (!s.holder.Accepting? && (t.holder.Idle? || t.holder.Cleaning? || t.holder.Promoting?))
    ensures Tracks(t, merged)
  {
    LatestStays(s.core, t.core);
  }

  lemma {:induction false} FileEditingTracks(s: State, a: Action, merged: Tree)
    requires Tracks(s, merged) && Enabled(s, a) && EditsFiles(a)
    ensures Tracks(Apply(s, a), merged)
  {
    QuietTracks(s, Apply(s, a), merged);
  }

  lemma {:induction false} EditingTracks(s: State, a: Action, merged: Tree)
    requires Tracks(s, merged) && Enabled(s, a) && (Edits(a) || a.SaveScript?)
    ensures Tracks(Apply(s, a), merged)
  {
    if EditsFiles(a) {
      FileEditingTracks(s, a, merged);
    } else {
      PlainEditsLeave(s, a);
      QuietTracks(s, Apply(s, a), merged);
    }
  }

  lemma {:induction false} PlainEditsLeave(s: State, a: Action)
    requires Enabled(s, a) && (Edits(a) || a.SaveScript?) && !EditsFiles(a)
    ensures Apply(s, a).core == s.core && Apply(s, a).holder == s.holder
    ensures Apply(s, a).site.source == s.site.source && Apply(s, a).site.uploaded == s.site.uploaded
  {
  }

  lemma {:induction false} ValidationKeepsUsability(s: State, a: Action)
    requires StorageSafety.RowsSound(s.core.rows, s.core.nextRow) && Enabled(s, a) && Validates(a)
    ensures UsabilityKept(s.core.rows, Apply(s, a).core.rows)
  {
    if a.ClaimValidation? {
      OneRowKeepsUsability(s.core.rows, a.row, ValidationClaimed(s, a.run, a.job, a.row).core.rows[a.row]);
    } else {
      var id := s.work.runs[a.run].revision;
      if Owns(s.core.rows, s.work.runs[a.run]) && !a.LoseWorker? {
        OneRowKeepsUsability(s.core.rows, id, Apply(s, a).core.rows[id]);
      }
    }
  }

  lemma {:induction false} OneRowKeepsUsability(rows: Table, id: nat, row: Row)
    requires id in rows && row.digest == rows[id].digest && (Usable(row) <==> Usable(rows[id]))
    requires row.status == StorageFailed <==> rows[id].status == StorageFailed
    ensures UsabilityKept(rows, rows[id := row])
  {
  }

  lemma {:induction false} RepointingKeepsUsability(rows: Table, next: nat, active: Option<nat>, id: nat)
    requires StorageSafety.RowsSound(rows, next) && Serving.PointerSound(rows, next, active)
    requires id in rows && rows[id].digest.Some? && Activatable(rows[id].status)
    ensures UsabilityKept(rows, Repointed(rows, active, id))
  {
  }

  lemma {:induction false} ServingKeepsUsability(s: State, a: Action)
    requires StorageSafety.RowsSound(s.core.rows, s.core.nextRow) && Serving.Coherent(s)
    requires Enabled(s, a) && (a.CommitPromotion? || a.Deactivate?)
    ensures UsabilityKept(s.core.rows, Apply(s, a).core.rows)
  {
    if a.CommitPromotion? && Promotable(s) && !Lifecycle.Serving(s, s.holder.row) {
      RepointingKeepsUsability(s.core.rows, s.core.nextRow, s.site.active, s.holder.row);
    }
  }

  lemma {:induction false} ValidatingTracks(s: State, a: Action, merged: Tree)
    requires Tracks(s, merged) && Enabled(s, a) && Validates(a)
    requires UsabilityKept(s.core.rows, Apply(s, a).core.rows)
    ensures Tracks(Apply(s, a), merged)
  {
    QuietTracks(s, Apply(s, a), merged);
  }

  lemma {:induction false} ServingTracks(s: State, a: Action, merged: Tree)
    requires Tracks(s, merged) && Enabled(s, a)
    requires UsabilityKept(s.core.rows, Apply(s, a).core.rows) && (a.CommitPromotion? || a.Deactivate?)
    ensures Tracks(Apply(s, a), merged)
  {
    QuietTracks(s, Apply(s, a), merged);
  }

  lemma {:induction false} CleaningTracks(s: State, a: Action, merged: Tree)
    requires Tracks(s, merged) && Enabled(s, a)
    requires a.BeginCleanup? || a.RecheckReferences? || a.DeleteKey? || a.FinishCleanup?
             || a.BeginPromotion? || a.VerifyPromoted?
    ensures Tracks(Apply(s, a), merged)
  {
    QuietTracks(s, Apply(s, a), merged);
  }

  lemma {:induction false} CrashTracks(s: State, merged: Tree)
    requires Tracks(s, merged) && !LosesFirst(s, Crash)
    ensures Tracks(Release(s), merged)
  {
  }

  // ----- Staging and refresh ---------------------------------------------------------------------

  lemma {:induction false} BeginUploadTracks(s: State, a: Action, merged: Tree)
    requires Tracks(s, merged) && Enabled(s, a) && a.BeginUpload?
    ensures Tracks(Apply(s, a), merged)
  {
    TrackedTree(s, merged);
  }

  lemma {:induction false} LookedUpTracks(s: State, merged: Tree)
    requires Tracks(s, merged) && Serving.Coherent(s) && s.holder.Storing? && s.holder.stage.Lookup?
    ensures Tracks(LookedUp(s), merged)
  {
    if FindRow(s.core.rows, s.holder.tree, s.holder.selection).None? {
      LatestIgnores(s.core, LookedUp(s).core, NewRowFor(s.holder.tree, s.holder.selection, Staging));
    }
  }

  lemma {:induction false} ClaimedTracks(s: State, merged: Tree)
    requires Tracks(s, merged) && s.holder.Storing? && s.holder.stage.Decide?
    ensures Tracks(Claimed(s), merged)
  {
    ClaimKeepsUsable(s);
    LatestStays(s.core, Claimed(s).core);
  }

  lemma {:induction false} ClaimKeepsUsable(s: State)
    requires s.holder.Storing? && s.holder.stage.Decide?
    ensures Claimed(s).core.nextRow == s.core.nextRow && SameUsable(s.core.rows, Claimed(s).core.rows, s.core.nextRow)
  {
  }

  lemma {:induction false} KeyWritingTracks(s: State, a: Action, merged: Tree)
    requires Tracks(s, merged) && Enabled(s, a) && WritesKeys(a)
    ensures Tracks(Apply(s, a), merged)
  {
    LatestStays(s.core, Apply(s, a).core);
  }

  lemma {:induction false} FailedTracks(s: State, merged: Tree)
    requires Tracks(s, merged) && s.holder.Storing? && s.holder.stage.Failing?
    ensures Tracks(FailureRecorded(s), merged)
  {
    LatestStays(s.core, FailureRecorded(s).core);
  }

  /** Settling a row leaves the newest tree, or makes it the settled row's. */
  lemma {:induction false} MoveGains(core: Core, id: nat, expected: set<Status>, errors: seq<string>, tree: Tree)
    requires id in core.rows && core.rows[id].digest == Some(tree) && expected <= {Staging, StorageFailed}
    ensures var after := Move(core, id, expected, Materialized, errors);
      LatestTree(after) == LatestTree(core) || LatestTree(after) == tree
  {
    var after := Move(core, id, expected, Materialized, errors);
    if after != core {
      NewestGains(core.rows, id, after.rows[id], core.nextRow);
    }
  }

  lemma {:induction false} SettledTracks(s: State, merged: Tree)
    requires Tracks(s, merged) && s.holder.Storing? && s.holder.stage.Verified?
    ensures Tracks(WriteSettled(s), merged)
  {
    MoveGains(s.core, s.holder.stage.id, {Staging}, [], s.holder.tree);
  }

  lemma {:induction false} RejectTracks(s: State, problems: seq<string>, merged: Tree)
    requires Tracks(s, merged) && Serving.Coherent(s) && Enabled(s, RejectContent(problems))
    ensures Tracks(Apply(s, RejectContent(problems)), merged)
  {
    LatestIgnores(s.core, Apply(s, RejectContent(problems)).core,
                  Row(None, s.holder.selection, Invalid, problems, map[], None, 0));
  }

  lemma {:induction false} RefreshTracks(s: State, a: Action, merged: Tree)
    requires Tracks(s, merged) && Serving.Coherent(s) && Enabled(s, a) && (a.BeginRefresh? || a.VerifyRefreshed?)
    ensures Tracks(Apply(s, a), merged)
  {
    if a.BeginRefresh? { TrackedTree(s, merged); }
  }

  lemma {:induction false} RefreshSettledTracks(s: State, merged: Tree)
    requires Tracks(s, merged) && s.holder.Refreshing? && s.holder.refresh.Settle?
    ensures Tracks(RefreshSettled(s), merged)
  {
    MoveGains(s.core, s.holder.refresh.id, {Staging, StorageFailed}, [], s.holder.tree);
  }

  lemma {:induction false} CreatedTracks(s: State, merged: Tree)
    requires Tracks(s, merged) && Serving.Coherent(s) && s.holder.Refreshing? && s.holder.refresh.Create?
    ensures Tracks(RefreshCreated(s), merged)
  {
  }

  /** Acceptance moves the merged tree by exactly the upload it carries. */
  lemma {:induction false} AcceptedTracks(s: State, merged: Tree)
    requires Tracks(s, merged) && s.holder.Accepting?
    ensures Tracks(Accepted(s), Joined(merged, s.holder.upload))
    ensures Accepted(s).history.uploads
         == s.history.uploads + if s.holder.upload.Some? then [s.holder.upload.value] else []
  {
  }

  lemma {:induction false} OnlyAcceptLogs(s: State, a: Action)
    requires !a.Accept?
    ensures Step(s, a).history.uploads == s.history.uploads
  {
    if Edits(a) {
      EditingLogsNothing(s, a);
    } else if Handles(a) {
      HandlingLogsNothing(s, a);
    } else if Validates(a) {
      ValidationLogsNothing(s, a);
    }
  }

  lemma {:induction false} ValidationLogsNothing(s: State, a: Action)
    requires Validates(a)
    ensures Step(s, a).history.uploads == s.history.uploads
  {
  }

  lemma {:induction false} EditingLogsNothing(s: State, a: Action)
    requires Edits(a)
    ensures Step(s, a).history.uploads == s.history.uploads
  {
  }

  lemma {:induction false} HandlingLogsNothing(s: State, a: Action)
    requires Handles(a)
    ensures Step(s, a).history.uploads == s.history.uploads
  {
  }

  lemma {:induction false} StepTracks(s: State, a: Action, merged: Tree)
    requires Tracks(s, merged) && StorageSafety.SoundState(s) && Serving.Coherent(s)
    requires Enabled(s, a) && !a.DeleteRows? && !a.Accept? && !LosesFirst(s, a)
    ensures Tracks(Apply(s, a), merged)
  {
    if a.BeginUpload? { BeginUploadTracks(s, a, merged); }
    else if a.LookUpRow? { LookedUpTracks(s, merged); }
    else if a.ClaimWrite? { ClaimedTracks(s, merged); }
    else if a.SettleWritten? { SettledTracks(s, merged); }
    else if a.RecordFailure? { FailedTracks(s, merged); }
    else if Writes(a) { KeyWritingTracks(s, a, merged); }
    else if a.RejectContent? { RejectTracks(s, a.problems, merged); }
    else if a.CreateRefreshed? { CreatedTracks(s, merged); }
    else if a.SettleRefreshed? { RefreshSettledTracks(s, merged); }
    else if a.BeginRefresh? || a.VerifyRefreshed? { RefreshTracks(s, a, merged); }
    else if a.Crash? { CrashTracks(s, merged); }
    else if Handles(a) { CleaningTracks(s, a, merged); }
    else if Validates(a) { ValidationKeepsUsability(s, a); ValidatingTracks(s, a, merged); }
    else if Edits(a) || a.SaveScript? { EditingTracks(s, a, merged); }
    else { ServingKeepsUsability(s, a); ServingTracks(s, a, merged); }
  }

  // ----- The theorem over all runs -----------------------------------------------------------------

  /** A run without deletions in which no crash loses the first revision. */
  ghost predicate Lossless(s: State, actions: seq<Action>) {
    forall k :: 0 <= k < |actions| ==> Harmless(s, actions, k)
  }

  ghost predicate Harmless(s: State, actions: seq<Action>, k: nat)
    requires k < |actions|
  {
    !actions[k].DeleteRows? && !LosesFirst(Exec(s, actions[..k]), actions[k])
  }

  lemma {:induction false} HarmlessInPrefix(s: State, actions: seq<Action>, k: nat)
    requires k < |actions| - 1
    ensures Harmless(s, actions[..|actions| - 1], k) <==> Harmless(s, actions, k)
  {
    var prefix := actions[..|actions| - 1];
    assert prefix[k] == actions[k] && prefix[..k] == actions[..k];
  }

  /** One step of a run, accepting or not, keeps the tree the fold of the log. */
  lemma {:induction false} StepFolds(s: State, a: Action, base: Tree, from: nat)
    requires from <= |s.history.uploads| && Tracks(s, Merged(base, Since(s.history, from)))
    requires StorageSafety.SoundState(s) && Serving.Coherent(s) && !a.DeleteRows? && !LosesFirst(s, a)
    ensures from <= |Step(s, a).history.uploads|
    ensures Tracks(Step(s, a), Merged(base, Since(Step(s, a).history, from)))
  {
    var t, merged := Step(s, a), Merged(base, Since(s.history, from));
    if a.Accept? && Enabled(s, a) {
      AcceptedTracks(s, merged);
      FoldGrows(base, s.history.uploads, s.holder.upload, from);
    } else {
      if Enabled(s, a) && !a.Accept? { OnlyAcceptLogs(s, a); StepTracks(s, a, merged); }
    }
  }

  lemma {:induction false} FoldGrows(base: Tree, uploads: seq<Upload>, upload: Option<Upload>, from: nat)
    requires from <= |uploads|
    ensures var grown := uploads + if upload.Some? then [upload.value] else [];
      Merged(base, grown[from..]) == Joined(Merged(base, uploads[from..]), upload)
  {
    if upload.Some? {
      var grown := uploads + [upload.value];
      assert grown[from..] == uploads[from..] + [upload.value];
      assert grown[from..][..|grown[from..]| - 1] == uploads[from..];
    } else {
      assert uploads + [] == uploads;
    }
  }

  lemma {:induction false} LosslessPrefix(s: State, actions: seq<Action>)
    requires Lossless(s, actions) && actions != []
    ensures Lossless(s, actions[..|actions| - 1])
  {
    var prefix := actions[..|actions| - 1];
    forall k | 0 <= k < |prefix| ensures Harmless(s, prefix, k) {
      assert Harmless(s, actions, k);
      HarmlessInPrefix(s, actions, k);
    }
  }

  lemma {:induction false} RunTracks(s: State, actions: seq<Action>, base: Tree)
    requires Tracks(s, base) && StorageSafety.SoundState(s) && Serving.Coherent(s)
    requires Lossless(s, actions)
    ensures |s.history.uploads| <= |Exec(s, actions).history.uploads|
    ensures Tracks(Exec(s, actions), Merged(base, Since(Exec(s, actions).history, |s.history.uploads|)))
  {
    if actions == [] {
      assert Since(s.history, |s.history.uploads|) == [];
    } else {
      var n := |actions| - 1;
      LosslessPrefix(s, actions);
      RunTracks(s, actions[..n], base);
      StorageSafety.RunSound(s, actions[..n]);
      assert Harmless(s, actions, n);
      StepFolds(Exec(s, actions[..n]), actions[n], base, |s.history.uploads|);
    }
  }

  /** An upload project nobody holds: what its current tree is, the next upload merges into. */
  ghost predicate AtRest(s: State) { s.site.uploaded && s.holder.Idle? }

  /**
   From any reachable state at rest, whatever uploads, refreshes, validations, promotions,
   failures and crashes happen, the current tree is the starting tree with the successful uploads
   merged in lock order. A rejected or failed upload contributes nothing, and reuse of an older
   revision contributes like any other.
   */
  lemma {:induction false} NoUploadIsLost(origin: State, earlier: seq<Action>, later: seq<Action>)
    requires Fresh(origin) && AtRest(Exec(origin, earlier)) && Lossless(Exec(origin, earlier), later)
    ensures var s, t := Exec(origin, earlier), Exec(Exec(origin, earlier), later);
      && |s.history.uploads| <= |t.history.uploads|
      && (!t.holder.Accepting? || t.site.source.Some? ==>
            CurrentTree(t.core, t.site.source)
            == Merged(CurrentTree(s.core, s.site.source), t.history.uploads[|s.history.uploads|..]))
  {
    StorageSafety.RunSound(origin, earlier);
    OneShot.AcceptedSourceIsStored(origin, earlier);
    var s := Exec(origin, earlier);
    var base := CurrentTree(s.core, s.site.source);
    assert Tracks(s, base);
    RunTracks(s, later, base);
    var t := Exec(s, later);
    if !t.holder.Accepting? || t.site.source.Some? {
      TrackedTree(t, Merged(base, Since(t.history, |s.history.uploads|)));
    }
  }

  /** While a source stays accepted no crash can lose an upload's place, so any deletion-free run is lossless. */
  lemma {:induction false} AcceptedRunsAreLossless(s: State, actions: seq<Action>)
    requires s.site.source.Some?
    requires forall k :: 0 <= k < |actions| ==> !actions[k].DeleteRows?
    ensures Lossless(s, actions) && Exec(s, actions).site.source.Some?
  {
    if actions != [] {
      var n := |actions| - 1;
      AcceptedRunsAreLossless(s, actions[..n]);
      SourceStays(Exec(s, actions[..n]), actions[n]);
      LosslessNext(s, actions);
    }
  }

  lemma {:induction false} LosslessNext(s: State, actions: seq<Action>)
    requires actions != [] && Lossless(s, actions[..|actions| - 1]) && Harmless(s, actions, |actions| - 1)
    ensures Lossless(s, actions)
  {
    var prefix := actions[..|actions| - 1];
    forall k | 0 <= k < |prefix| ensures Harmless(s, actions, k) {
      assert Harmless(s, prefix, k);
      HarmlessInPrefix(s, actions, k);
    }
  }

  lemma {:induction false} SourceStays(s: State, a: Action)
    requires s.site.source.Some? && !a.DeleteRows?
    ensures Step(s, a).site.source.Some?
  {
  }

  /**
   Exactly the excluded crash breaks the fold. Any other crash of an operation about to accept
   leaves the merged tree; the excluded one leaves the tree it caught, which is the merged one
   only when the upload brought nothing new.
   */
  lemma {:induction false} OnlyALosingCrashBreaksTheFold(s: State, merged: Tree)
    requires Tracks(s, merged) && s.holder.Accepting? && s.site.source.None?
    ensures var t := Step(s, Crash);
      && t.history.uploads == s.history.uploads
      && (CurrentTree(t.core, t.site.source) == merged <==> !LosesFirst(s, Crash) || s.holder.tree == merged)
  {
  }

  /** An upload into an empty project, stopped between settling its revision and accepting it. */
  function LostFirstUpload(path: Path, content: Bytes): seq<Action> {
    [BeginUpload(path, content, false, false), LookUpRow, ClaimWrite, WriteFile(path), VerifyWritten, SettleWritten,
     Crash]
  }

  /** The project while that upload writes its one file. */
  function WhileWriting(s: State, path: Path, content: Bytes): State {
    var tree: Tree := map[path := content];
    s.(core := s.core.(rows := map[0 := NewRowFor(tree, map[], Staging)], nextRow := 1),
       holder := Storing(tree, map[], false, Some(Upload(path, content)), Writing(0, {path})))
  }

  lemma {:induction false} LostUploadStarts(s: State, path: Path, content: Bytes)
    requires Fresh(s) && s.site.uploaded
    ensures Exec(s, LostFirstUpload(path, content)[..3]) == WhileWriting(s, path, content)
  {
    var actions := LostFirstUpload(path, content);
    var tree: Tree := map[path := content];
    var h := Storing(tree, map[], false, Some(Upload(path, content)), Lookup);
    var s2 := s.(core := s.core.(rows := map[0 := NewRowFor(tree, map[], Staging)], nextRow := 1),
                 holder := h.(stage := Decide(0, Staging)));
    ExecTo(s, actions, 1, s.(holder := h));
    ExecTo(s, actions, 2, s2);
    assert tree.Keys == {path};
    ExecTo(s, actions, 3, WhileWriting(s, path, content));
  }

  lemma {:induction false} LostUploadWrites(s: State, path: Path, content: Bytes)
    requires Fresh(s) && s.site.uploaded
    ensures var tree: Tree := map[path := content]; var w := WhileWriting(s, path, content);
      Exec(s, LostFirstUpload(path, content)[..5])
      == w.(core := w.core.(store := map[Key(tree, path) := content]), holder := w.holder.(stage := Verified(0)))
  {
    var actions := LostFirstUpload(path, content);
    var tree: Tree := map[path := content];
    var w := WhileWriting(s, path, content);
    LostUploadStarts(s, path, content);
    var s4 := w.(core := w.core.(store := map[Key(tree, path) := content]),
                 holder := w.holder.(stage := Writing(0, {})));
    assert {path} - {path} == {} && w.core.store[Key(tree, path) := content] == s4.core.store;
    ExecTo(s, actions, 4, s4);
    ExecTo(s, actions, 5, s4.(holder := w.holder.(stage := Verified(0))));
  }

  /**
   The condition is needed: in a project that never accepted anything the fallback to the newest
   stored revision picks up an upload whose acceptance a crash prevented, so the current tree
   holds a file no successful upload brought.
   */
  lemma {:induction false} ACrashCanLoseTheFirstAcceptance(s: State, path: Path, content: Bytes)
    requires Fresh(s) && s.site.uploaded
    ensures var t := Exec(s, LostFirstUpload(path, content));
      && t.holder.Idle? && t.history.uploads == []
      && CurrentTree(t.core, t.site.source) == map[path := content] != Merged(CurrentTree(s.core, s.site.source), [])
  {
    var actions := LostFirstUpload(path, content);
    var tree: Tree := map[path := content];
    LostUploadWrites(s, path, content);
    var s5 := Exec(s, actions[..5]);
    var s6 := s5.(core := s5.core.(rows := map[0 := NewRowFor(tree, map[], Materialized)]),
                  holder := Accepting(tree, 0, Materialized, false, Some(Upload(path, content))));
    ExecTo(s, actions, 6, s6);
    ExecTo(s, actions, 7, s6.(holder := Idle));
    assert actions[..7] == actions;
    assert path in CurrentTree(Exec(s, actions).core, None);
  }
}
