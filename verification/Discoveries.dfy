/**
 What discovery records on Script Files, over all runs: a result never goes back to an earlier
 claim, and the results converge on the latest attempts.
 */
module Discoveries {
  import opened Prelude
  import opened Lifecycle
  import opened Effects
  import opened Fencing
  import Serving

  type Files = map<nat, FileRow>
  type Attempts = seq<Discovery>

  // ----- What a file records is a judged revision ----------------------------------------------

  ghost predicate FileRecorded(rows: Table, file: FileRow) {
    file.discovered.Some? ==> file.discovered.value in rows && Judged(rows[file.discovered.value])
  }

  ghost predicate Recorded(rows: Table, files: Files, nextFile: nat) {
    forall f :: f in files ==> f < nextFile && FileRecorded(rows, files[f])
  }

  ghost predicate RecordedState(s: State) { Recorded(s.core.rows, s.work.files, s.work.nextFile) }

  /** Judged rows stay, with their claim times, while nothing is deleted. */
  ghost predicate JudgedKept(before: Table, after: Table) {
    forall id :: id in before && Judged(before[id]) ==>
      id in after && Judged(after[id]) && after[id].started == before[id].started
  }

  /** A file keeps what discovery recorded on it, or is new. */
  ghost predicate DiscoveriesKept(before: Work, after: Work) {
    && before.nextFile <= after.nextFile
    && (forall f :: f in after.files ==> f < after.nextFile)
    && (forall f :: f in after.files && f in before.files ==>
          after.files[f].discovered == before.files[f].discovered && after.files[f].outcome == before.files[f].outcome)
    && (forall f :: f in after.files && f !in before.files ==> f >= before.nextFile && after.files[f].discovered.None?)
  }

  lemma {:induction false} ValidatingKeepsJudged(s: State, a: Action)
    requires Enabled(s, a) && Validates(a)
    ensures JudgedKept(s.core.rows, Apply(s, a).core.rows)
  {
    if a.ClaimValidation? { assert Apply(s, a) == ValidationClaimed(s, a.run, a.job, a.row); }
    else if a.ReachVerdict? { assert Apply(s, a) == VerdictReached(s, a.run, a.verdict); }
    else if a.RevertClaim? { assert Apply(s, a) == ClaimReverted(s, a.run); }
    else { assert Apply(s, a) == WorkerLost(s, a.run); }
  }

  lemma {:induction false} SettledKeepsJudged(before: Table, after: Table)
    requires RowsSettled(before, after)
    requires forall id :: id in before && before[id].digest.None? ==> before[id].status == Invalid
    ensures JudgedKept(before, after)
  {
    forall id | id in before ensures Settled(before[id], after[id]) {
    }
  }

  lemma {:induction false} SidelongKeepsJudged(before: Table, after: Table)
    requires AllSidelong(before, after)
    ensures JudgedKept(before, after)
  {
  }

  lemma {:induction false} InsertingKeepsJudged(s: State, a: Action)
    requires FencedState(s) && Inserts(a)
    ensures JudgedKept(s.core.rows, Step(s, a).core.rows)
  {
    InsertingJoins(s, a);
    if Quiet(s, Step(s, a)) {
      SettledKeepsJudged(s.core.rows, Step(s, a).core.rows);
    }
  }

  lemma {:induction false} JudgedStay(s: State, a: Action)
    requires FencedState(s) && Serving.Coherent(s) && !a.DeleteRows?
    ensures JudgedKept(s.core.rows, Step(s, a).core.rows)
  {
    if Inserts(a) {
      InsertingKeepsJudged(s, a);
    } else if !Validates(a) {
      OtherStepsAreAside(s, a);
      SidelongKeepsJudged(s.core.rows, Step(s, a).core.rows);
    } else if Enabled(s, a) {
      ValidatingKeepsJudged(s, a);
    }
  }

  lemma {:induction false} FilesStay(s: State, a: Action)
    requires !a.DeleteRows? && !a.PersistDiscovery?
    requires forall f :: f in s.work.files ==> f < s.work.nextFile
    ensures DiscoveriesKept(s.work, Step(s, a).work)
    ensures Step(s, a).history.discoveries == s.history.discoveries
  {
    DiscoveriesUntouched(s, a);
    if Edits(a) { EditedFilesStay(s, a); }
    else if a.BeginUpload? { DeclaredFilesStay(s, a); }
    else { FilesUntouched(s, a); }
  }

  lemma {:induction false} EditedFilesStay(s: State, a: Action)
    requires Edits(a) && !a.PersistDiscovery?
    requires forall f :: f in s.work.files ==> f < s.work.nextFile
    ensures DiscoveriesKept(s.work, Step(s, a).work)
  {
    if !EditsFiles(a) { FilesUntouched(s, a); }
  }

  lemma {:induction false} DeclaredFilesStay(s: State, a: Action)
    requires a.BeginUpload?
    requires forall f :: f in s.work.files ==> f < s.work.nextFile
    ensures DiscoveriesKept(s.work, Step(s, a).work)
  {
    assert DiscoveriesKept(s.work, Declared(s.work, a.path));
  }

  lemma {:induction false} FilesUntouched(s: State, a: Action)
    requires !a.DeleteRows? && !EditsFiles(a) && !a.PersistDiscovery? && !a.BeginUpload?
    ensures Step(s, a).work.files == s.work.files && Step(s, a).work.nextFile == s.work.nextFile
  {
  }

  lemma {:induction false} DiscoveriesUntouched(s: State, a: Action)
    requires !a.PersistDiscovery?
    ensures Step(s, a).history.discoveries == s.history.discoveries
  {
    if Quietly(a) { QuietSteps(s, a); }
    else if Inserts(a) { InsertingJoins(s, a); }
    else { LoudDiscoveriesUntouched(s, a); }
  }

  lemma {:induction false} LoudDiscoveriesUntouched(s: State, a: Action)
    requires !a.PersistDiscovery? && !Quietly(a) && !Inserts(a)
    ensures Step(s, a).history.discoveries == s.history.discoveries
  {
  }

  lemma {:induction false} KeptRecorded(before: Table, after: Table, work: Work, later: Work)
    requires Recorded(before, work.files, work.nextFile) && JudgedKept(before, after) && DiscoveriesKept(work, later)
    ensures Recorded(after, later.files, later.nextFile)
  {
    forall f | f in later.files ensures FileRecorded(after, later.files[f]) {
      if f in work.files {
        assert FileRecorded(before, work.files[f]);
      }
    }
  }

  /** The row a decided run judged, which carries no earlier claim time than the run's. */
  lemma {:induction false} DecidedIsJudged(rows: Table, runs: Runs, verdicts: Verdicts, run: nat)
    requires DecisionsLogged(runs, verdicts) && VerdictsStand(rows, verdicts) && Timely(rows, runs)
    requires run in runs && runs[run].outcome.Decided? && runs[run].revision in rows
    ensures Judged(rows[runs[run].revision]) && runs[run].started <= rows[runs[run].revision].started
  {
  }

  lemma {:induction false} DeletedRecorded(s: State, ids: set<nat>)
    requires RecordedState(s)
    ensures RecordedState(Deleted(s, ids))
  {
    var t := Deleted(s, ids);
    forall f | f in t.work.files ensures f < t.work.nextFile && FileRecorded(t.core.rows, t.work.files[f]) {
      assert FileRecorded(s.core.rows, s.work.files[f]);
    }
  }

  lemma {:induction false} PersistRecorded(s: State, run: nat, f: nat)
    requires RecordedState(s) && FencedState(s) && run in s.work.runs && s.work.runs[run].outcome.Decided?
    requires s.work.runs[run].revision in s.core.rows && f in s.work.files
    requires f in s.work.runs[run].outcome.verdict.outcomes
    ensures RecordedState(DiscoveryPersisted(s, run, f))
  {
    DecidedIsJudged(s.core.rows, s.work.runs, s.history.verdicts, run);
    var t := DiscoveryPersisted(s, run, f);
    forall g | g in t.work.files ensures FileRecorded(t.core.rows, t.work.files[g]) {
      assert FileRecorded(s.core.rows, s.work.files[g]);
    }
  }

  lemma {:induction false} StepRecorded(s: State, a: Action)
    requires FencedState(s) && Serving.Coherent(s) && RecordedState(s)
    ensures RecordedState(Step(s, a))
  {
    if a.DeleteRows? {
      DeletedRecorded(s, a.ids);
    } else if !a.PersistDiscovery? {
      JudgedStay(s, a);
      FilesStay(s, a);
      KeptRecorded(s.core.rows, Step(s, a).core.rows, s.work, Step(s, a).work);
    } else if Enabled(s, a) {
      PersistRecorded(s, a.run, a.file);
    }
  }

  lemma {:induction false} RunRecorded(s: State, actions: seq<Action>)
    requires FencedState(s) && Serving.Coherent(s) && RecordedState(s)
    ensures RecordedState(Exec(s, actions))
  {
    if actions != [] {
      RunRecorded(s, actions[..|actions| - 1]);
      RunFenced(s, actions[..|actions| - 1]);
      StepRecorded(Exec(s, actions[..|actions| - 1]), actions[|actions| - 1]);
    }
  }

  /**
   What persisting a result writes: the outcome, under its revision, on a file discovery never reached,
   reached for this revision, or reached for one claimed earlier; and nothing else. A file moved or
   removed since staging is left alone, as is any the verdict says nothing of.
   */
  lemma {:induction false} PersistsExactly(s: State, run: nat, f: nat)
    ensures Enabled(s, PersistDiscovery(run, f)) <==>
              && run in s.work.runs && s.work.runs[run].outcome.Decided?
              && var r := s.work.runs[run];
                 && f in s.work.files && f in r.outcome.verdict.outcomes && r.revision in s.core.rows
                 && f in s.core.rows[r.revision].selection
                 && s.core.rows[r.revision].selection[f] == s.work.files[f].path
    ensures Enabled(s, PersistDiscovery(run, f)) ==>
              var t, r, file := Step(s, PersistDiscovery(run, f)), s.work.runs[run], s.work.files[f];
              && t.core == s.core && t.site == s.site && t.work.runs == s.work.runs
              && t.work.files == s.work.files[f :=
                   if file.discovered == None || file.discovered == Some(r.revision)
                      || (file.discovered.value in s.core.rows
                          && s.core.rows[file.discovered.value].started < r.started)
                   then FileRow(file.path, file.enabled, r.outcome.verdict.outcomes[f], Some(r.revision)) else file]
  {
    if Enabled(s, PersistDiscovery(run, f)) {
      assert Step(s, PersistDiscovery(run, f)) == DiscoveryPersisted(s, run, f);
      assert s.work.files[f := s.work.files[f]] == s.work.files;
    }
  }

  // ----- Results never go back ---------------------------------------------------------------------

  /** The claim time a Script File's result carries. */
  function ResultTime(rows: Table, file: FileRow): int {
    if file.discovered.Some? && file.discovered.value in rows then rows[file.discovered.value].started else -1
  }

  /** In every reachable state, no step but a deletion moves a Script File's result back to an earlier claim. */
  lemma {:induction false} DiscoveryNeverGoesBack(origin: State, earlier: seq<Action>, a: Action, f: nat)
    requires Fresh(origin) && !a.DeleteRows?
    requires f in Exec(origin, earlier).work.files && f in Step(Exec(origin, earlier), a).work.files
    ensures var s := Exec(origin, earlier); var t := Step(s, a);
      ResultTime(s.core.rows, s.work.files[f]) <= ResultTime(t.core.rows, t.work.files[f])
  {
    RunFenced(origin, earlier);
    RunRecorded(origin, earlier);
    StepNeverGoesBack(Exec(origin, earlier), a, f);
  }

  lemma {:induction false} StepNeverGoesBack(s: State, a: Action, f: nat)
    requires FencedState(s) && Serving.Coherent(s) && RecordedState(s) && !a.DeleteRows?
    requires f in s.work.files && f in Step(s, a).work.files
    ensures ResultTime(s.core.rows, s.work.files[f]) <= ResultTime(Step(s, a).core.rows, Step(s, a).work.files[f])
  {
    assert FileRecorded(s.core.rows, s.work.files[f]);
    if !a.PersistDiscovery? {
      JudgedStay(s, a);
      FilesStay(s, a);
      KeptNeverGoesBack(s.core.rows, Step(s, a).core.rows, s.work.files[f], Step(s, a).work.files[f]);
    } else if Enabled(s, a) {
      PersistNeverGoesBack(s, a.run, a.file, f);
    }
  }

  lemma {:induction false} KeptNeverGoesBack(before: Table, after: Table, file: FileRow, later: FileRow)
    requires JudgedKept(before, after) && FileRecorded(before, file) && later.discovered == file.discovered
    ensures ResultTime(before, file) <= ResultTime(after, later)
  {
  }

  lemma {:induction false} PersistNeverGoesBack(s: State, run: nat, g: nat, f: nat)
    requires FencedState(s) && run in s.work.runs && s.work.runs[run].outcome.Decided?
    requires s.work.runs[run].revision in s.core.rows && g in s.work.files && f in s.work.files
    requires g in s.work.runs[run].outcome.verdict.outcomes
    ensures ResultTime(s.core.rows, s.work.files[f])
         <= ResultTime(s.core.rows, DiscoveryPersisted(s, run, g).work.files[f])
  {
    DecidedIsJudged(s.core.rows, s.work.runs, s.history.verdicts, run);
  }

  // ----- Results converge ----------------------------------------------------------------------------

  /** No attempt on the file claimed later than the revision it records. */
  ghost predicate Newest(discoveries: Attempts, f: nat, started: nat) {
    forall k :: 0 <= k < |discoveries| && discoveries[k].file == f ==> discoveries[k].started <= started
  }

  ghost predicate Attempted(discoveries: Attempts, d: Discovery) {
    exists k :: 0 <= k < |discoveries| && discoveries[k] == d
  }

  /** The file records the outcome of an attempt with the greatest claim time, if there was any. */
  ghost predicate FileConverged(rows: Table, discoveries: Attempts, f: nat, file: FileRow) {
    match file.discovered
    case None => forall k :: 0 <= k < |discoveries| ==> discoveries[k].file != f
    case Some(r) =>
      && r in rows && Judged(rows[r])
      && Attempted(discoveries, Discovery(f, r, rows[r].started, file.outcome))
      && Newest(discoveries, f, rows[r].started)
  }

  ghost predicate Converged(s: State) {
    && (forall f :: f in s.work.files ==>
          f < s.work.nextFile && FileConverged(s.core.rows, s.history.discoveries, f, s.work.files[f]))
    && (forall k :: 0 <= k < |s.history.discoveries| ==> s.history.discoveries[k].file < s.work.nextFile)
  }

  lemma {:induction false} QuietConverged(s: State, t: State)
    requires Converged(s) && JudgedKept(s.core.rows, t.core.rows) && DiscoveriesKept(s.work, t.work)
    requires t.history.discoveries == s.history.discoveries
    ensures Converged(t)
  {
    forall f | f in t.work.files
      ensures FileConverged(t.core.rows, t.history.discoveries, f, t.work.files[f])
    {
      if f in s.work.files {
        assert FileConverged(s.core.rows, s.history.discoveries, f, s.work.files[f]);
      }
    }
  }

  /** One more attempt leaves a file converged when it records that attempt, or is not the file it names. */
  lemma {:induction false} MoreDiscoveries(rows: Table, discoveries: Attempts, d: Discovery, f: nat, file: FileRow)
    requires FileConverged(rows, discoveries, f, file) && (d.file != f || !MayRecord(rows, file, d.revision, d.started))
    ensures FileConverged(rows, discoveries + [d], f, file)
  {
    var more := discoveries + [d];
    if file.discovered.Some? {
      var kept := Discovery(f, file.discovered.value, rows[file.discovered.value].started, file.outcome);
      var k :| 0 <= k < |discoveries| && discoveries[k] == kept;
      assert more[k] == kept;
    }
  }

  lemma {:induction false} RecordedDiscovery(rows: Table, discoveries: Attempts, d: Discovery, file: FileRow)
    requires FileConverged(rows, discoveries, d.file, file) && MayRecord(rows, file, d.revision, d.started)
    requires d.revision in rows && Judged(rows[d.revision]) && rows[d.revision].started == d.started
    ensures FileConverged(rows, discoveries + [d], d.file, file.(outcome := d.outcome, discovered := Some(d.revision)))
  {
    assert (discoveries + [d])[|discoveries|] == d;
    assert Attempted(discoveries + [d], d);
  }

  lemma {:induction false} PersistConverged(s: State, run: nat, f: nat)
    requires Converged(s) && FencedState(s) && DecidedOnTime(s.core.rows, s.work.runs)
    requires run in s.work.runs && s.work.runs[run].outcome.Decided? && s.work.runs[run].revision in s.core.rows
    requires f in s.work.files && f in s.work.runs[run].outcome.verdict.outcomes
    ensures Converged(DiscoveryPersisted(s, run, f))
  {
    var t, r := DiscoveryPersisted(s, run, f), s.work.runs[run];
    var d := Discovery(f, r.revision, r.started, r.outcome.verdict.outcomes[f]);
    DecidedIsJudged(s.core.rows, s.work.runs, s.history.verdicts, run);
    forall g | g in t.work.files ensures FileConverged(t.core.rows, t.history.discoveries, g, t.work.files[g]) {
      PersistedFile(s.core.rows, s.history.discoveries, s.work.files, d, g);
    }
  }

  lemma {:induction false} PersistedFile(rows: Table, discoveries: Attempts, files: Files, d: Discovery, g: nat)
    requires d.file in files && g in files && FileConverged(rows, discoveries, g, files[g])
    requires d.revision in rows && Judged(rows[d.revision]) && rows[d.revision].started == d.started
    ensures var file := files[g];
      FileConverged(rows, discoveries + [d], g,
                    if g == d.file && MayRecord(rows, file, d.revision, d.started)
                    then file.(outcome := d.outcome, discovered := Some(d.revision)) else file)
  {
    if g == d.file && MayRecord(rows, files[g], d.revision, d.started) {
      RecordedDiscovery(rows, discoveries, d, files[g]);
    } else {
      MoreDiscoveries(rows, discoveries, d, g, files[g]);
    }
  }

  lemma {:induction false} StepConverged(s: State, a: Action)
    requires FencedState(s) && Serving.Coherent(s) && GuardedState(s) && Converged(s) && !a.DeleteRows?
    ensures Converged(Step(s, a))
  {
    if !a.PersistDiscovery? {
      JudgedStay(s, a);
      FilesStay(s, a);
      QuietConverged(s, Step(s, a));
    } else if Enabled(s, a) {
      PersistConverged(s, a.run, a.file);
    }
  }

  lemma {:induction false} RunConverged(s: State, actions: seq<Action>)
    requires FencedState(s) && Serving.Coherent(s) && GuardedState(s) && Converged(s) && Unrepeated(s, actions)
    requires forall k :: 0 <= k < |actions| ==> !actions[k].DeleteRows?
    ensures Converged(Exec(s, actions))
  {
    if actions != [] {
      UnrepeatedPrefix(s, actions);
      RunConverged(s, actions[..|actions| - 1]);
      RunFenced(s, actions[..|actions| - 1]);
      RunGuarded(s, actions[..|actions| - 1]);
      StepConverged(Exec(s, actions[..|actions| - 1]), actions[|actions| - 1]);
    }
  }

  /**
   Absent deletions and second runs of a Job, in whatever order verdicts persist, each Script File
   ends with the outcome of an attempt having the greatest claim time, or untouched when none was
   made.
   */
  lemma {:induction false} DiscoveryConverges(s: State, actions: seq<Action>)
    requires Fresh(s) && Unrepeated(s, actions) && forall k :: 0 <= k < |actions| ==> !actions[k].DeleteRows?
    ensures var t := Exec(s, actions);
      forall f :: f in t.work.files ==>
        match t.work.files[f].discovered
        case None => forall k :: 0 <= k < |t.history.discoveries| ==> t.history.discoveries[k].file != f
        case Some(r) =>
          && r in t.core.rows
          && Attempted(t.history.discoveries, Discovery(f, r, t.core.rows[r].started, t.work.files[f].outcome))
          && Newest(t.history.discoveries, f, t.core.rows[r].started)
  {
    RunConverged(s, actions);
    var t := Exec(s, actions);
    forall f | f in t.work.files
      ensures FileConverged(t.core.rows, t.history.discoveries, f, t.work.files[f])
    {
    }
  }
}
