/** What the steps of storage and of editing leave alone, for the invariants over all runs to share. */
module Effects {
  import opened Lifecycle

  type Table = map<nat, Row>

  /** A row keeps everything, or a write moves it among the statuses of an unfinished one. */
  predicate Settled(before: Row, after: Row) {
    || after == before
    || (after == before.(status := after.status, errors := after.errors)
        && Retryable(before.status) && (Retryable(after.status) || after.status == Materialized))
  }

  ghost predicate RowsSettled(before: Table, after: Table) {
    after.Keys == before.Keys && forall id :: id in before ==> Settled(before[id], after[id])
  }

  /** Nothing is published, claimed, judged or consumed, and no row comes or goes. */
  ghost predicate Quiet(s: State, t: State) {
    && t.core.nextRow == s.core.nextRow && RowsSettled(s.core.rows, t.core.rows)
    && t.site.active == s.site.active && t.site.scripts == s.site.scripts
    && t.work.runs == s.work.runs && s.work.clock <= t.work.clock
    && t.history.claimant == s.history.claimant && t.history.verdicts == s.history.verdicts
    && t.history.discoveries == s.history.discoveries && t.history.consumed == s.history.consumed
  }

  /** A row no verdict stands on joins under the next identifier, and nothing else a theorem speaks of moves. */
  ghost predicate Joins(s: State, t: State, row: Row) {
    && t.core.nextRow == s.core.nextRow + 1 && t.core.rows == s.core.rows[s.core.nextRow := row]
    && (if row.digest.None? then row.status == Invalid else row.status in {Staging, Materialized})
    && t.site == s.site && t.work == s.work && t.history == s.history
  }

  lemma {:induction false} OpeningIsQuiet(s: State, a: Action)
    requires Enabled(s, a) && Opens(a)
    ensures Quiet(s, Apply(s, a))
  {
  }

  lemma {:induction false} ClaimIsQuiet(s: State)
    requires Enabled(s, ClaimWrite)
    ensures Quiet(s, Claimed(s))
  {
  }

  lemma {:induction false} AcceptIsQuiet(s: State)
    requires Enabled(s, Accept)
    ensures Quiet(s, Accepted(s))
  {
  }

  lemma {:induction false} KeyWritingIsQuiet(s: State, a: Action)
    requires Enabled(s, a) && WritesKeys(a)
    ensures Quiet(s, Apply(s, a))
  {
  }

  lemma {:induction false} FailureIsQuiet(s: State)
    requires Enabled(s, RecordFailure)
    ensures Quiet(s, FailureRecorded(s))
  {
  }

  lemma {:induction false} SettlingIsQuiet(s: State)
    requires Enabled(s, SettleWritten)
    ensures Quiet(s, WriteSettled(s))
  {
  }

  lemma {:induction false} RefreshingIsQuiet(s: State, a: Action)
    requires Enabled(s, a) && (a.BeginRefresh? || a.VerifyRefreshed?)
    ensures Quiet(s, Apply(s, a))
  {
  }

  lemma {:induction false} RefreshSettlingIsQuiet(s: State)
    requires Enabled(s, SettleRefreshed)
    ensures Quiet(s, RefreshSettled(s))
  {
  }

  lemma {:induction false} CleaningIsQuiet(s: State, a: Action)
    requires Enabled(s, a) && (a.BeginCleanup? || a.RecheckReferences? || a.DeleteKey? || a.FinishCleanup?)
    ensures Quiet(s, Apply(s, a))
  {
  }

  lemma {:induction false} PreparingIsQuiet(s: State, a: Action)
    requires Enabled(s, a) && (a.BeginPromotion? || a.VerifyPromoted? || a.Crash?)
    ensures Quiet(s, Apply(s, a))
  {
  }

  lemma {:induction false} FileEditingIsQuiet(s: State, a: Action)
    requires Enabled(s, a) && EditsFiles(a)
    ensures Quiet(s, Apply(s, a))
  {
  }

  lemma {:induction false} TickingIsQuiet(s: State, a: Action)
    requires Enabled(s, a) && (a.SaveProject? || a.Tick?)
    ensures Quiet(s, Apply(s, a))
  {
  }

  /** The steps that are quiet whatever the state. */
  predicate Quietly(a: Action) {
    Begins(a) || Writes(a) || Handles(a) || (Edits(a) && !a.PersistDiscovery?)
  }

  lemma {:induction false} StagingIsQuiet(s: State, a: Action)
    requires Enabled(s, a) && (Begins(a) || Writes(a))
    ensures Quiet(s, Apply(s, a))
  {
    if Opens(a) { OpeningIsQuiet(s, a); }
    else if a.ClaimWrite? { ClaimIsQuiet(s); }
    else if a.Accept? { AcceptIsQuiet(s); }
    else if WritesKeys(a) { KeyWritingIsQuiet(s, a); }
    else if a.RecordFailure? { FailureIsQuiet(s); }
    else { SettlingIsQuiet(s); }
  }

  lemma {:induction false} HandlingIsQuiet(s: State, a: Action)
    requires Enabled(s, a) && Handles(a)
    ensures Quiet(s, Apply(s, a))
  {
    if a.BeginRefresh? || a.VerifyRefreshed? { RefreshingIsQuiet(s, a); }
    else if a.SettleRefreshed? { RefreshSettlingIsQuiet(s); }
    else if a.BeginPromotion? || a.VerifyPromoted? || a.Crash? { PreparingIsQuiet(s, a); }
    else { CleaningIsQuiet(s, a); }
  }

  lemma {:induction false} QuietSteps(s: State, a: Action)
    requires Quietly(a)
    ensures Quiet(s, Step(s, a))
  {
    if Enabled(s, a) {
      if Begins(a) || Writes(a) { StagingIsQuiet(s, a); }
      else if Handles(a) { HandlingIsQuiet(s, a); }
      else if EditsFiles(a) { FileEditingIsQuiet(s, a); }
      else { TickingIsQuiet(s, a); }
    }
  }

  ghost predicate QuietOrJoins(s: State, t: State) {
    Quiet(s, t) || (s.core.nextRow in t.core.rows && Joins(s, t, t.core.rows[s.core.nextRow]))
  }

  /** A step that may insert a row does so, or is quiet. */
  lemma {:induction false} InsertingJoins(s: State, a: Action)
    requires Inserts(a)
    ensures QuietOrJoins(s, Step(s, a))
  {
  }
}
