/**
 The validation lease, over all runs: each revision gets at most one verdict, which comes whole
 and stands; and while no Job is run a second time on a revision it is still at work on, the
 verdict comes from the latest claim and a run that lost its claim changes nothing.
 */
module Fencing {
  import opened Prelude
  import opened Lifecycle
  import opened Effects
  import Serving

  type Runs = map<nat, Run>
  type Claims = map<nat, nat>
  type Verdicts = seq<VerdictEvent>

  /** A verdict stands on the row. A rejected staging attempt has no digest and got none. */
  predicate Judged(row: Row) {
    row.status in {Valid, Active, Retired} || (row.status == Invalid && row.digest.Some?)
  }

  /** The row records this verdict, whole. */
  predicate Records(row: Row, v: Verdict) {
    && (v.valid <==> row.status != Invalid)
    && row.errors == v.errors
    && row.published == v.published
  }

  ghost predicate HasVerdict(verdicts: Verdicts, id: nat) {
    exists k :: 0 <= k < |verdicts| && verdicts[k].revision == id
  }

  ghost predicate OneVerdictEach(verdicts: Verdicts) {
    forall i, k :: 0 <= i < k < |verdicts| ==> verdicts[i].revision != verdicts[k].revision
  }

  /** Every verdict on a surviving row is recorded on it. */
  ghost predicate VerdictsStand(rows: Table, verdicts: Verdicts) {
    forall k :: 0 <= k < |verdicts| && verdicts[k].revision in rows ==>
      Judged(rows[verdicts[k].revision]) && Records(rows[verdicts[k].revision], verdicts[k].verdict)
  }

  ghost predicate JudgedHaveVerdicts(rows: Table, verdicts: Verdicts) {
    forall id :: id in rows && Judged(rows[id]) ==> HasVerdict(verdicts, id)
  }

  /** A row being validated is owned by the Job of its last claimant, and carries its claim time. */
  ghost predicate OwnersClaimed(rows: Table, runs: Runs, claims: Claims) {
    forall id :: id in rows && rows[id].status == Validating ==>
      && id in claims && claims[id] in runs && runs[claims[id]].revision == id
      && rows[id].owner == Some(runs[claims[id]].job) && rows[id].started == runs[claims[id]].started
  }

  ghost predicate DecisionsLogged(runs: Runs, verdicts: Verdicts) {
    forall r :: r in runs && runs[r].outcome.Decided? ==>
      exists k :: 0 <= k < |verdicts| && verdicts[k] == VerdictEvent(runs[r].revision, r, runs[r].outcome.verdict)
  }

  /** No run claimed a row being validated, or judged, after the claim time the row carries. */
  ghost predicate Timely(rows: Table, runs: Runs) {
    forall r :: r in runs && runs[r].revision in rows
                && (rows[runs[r].revision].status == Validating || Judged(rows[runs[r].revision])) ==>
      runs[r].started <= rows[runs[r].revision].started
  }

  ghost predicate Bounded(rows: Table, next: nat, runs: Runs, verdicts: Verdicts) {
    && (forall id :: id in rows ==> id < next && (rows[id].digest.None? ==> rows[id].status == Invalid))
    && (forall r :: r in runs ==> runs[r].revision < next)
    && (forall k :: 0 <= k < |verdicts| ==> verdicts[k].revision < next)
  }

  ghost predicate Fenced(core: Core, runs: Runs, claims: Claims, verdicts: Verdicts) {
    && Bounded(core.rows, core.nextRow, runs, verdicts)
    && OneVerdictEach(verdicts)
    && VerdictsStand(core.rows, verdicts)
    && JudgedHaveVerdicts(core.rows, verdicts)
    && OwnersClaimed(core.rows, runs, claims)
    && DecisionsLogged(runs, verdicts)
    && Timely(core.rows, runs)
  }

  ghost predicate Past(runs: Runs, clock: nat) { forall r :: r in runs ==> runs[r].started <= clock }

  /** What holds of every reachable state. */
  ghost predicate FencedState(s: State) {
    Fenced(s.core, s.work.runs, s.history.claimant, s.history.verdicts) && Past(s.work.runs, s.work.clock)
  }

  // ----- What the fence is for -----------------------------------------------------------------

  /** A run still at work that passes the fence is the latest claimant. */
  ghost predicate HoldersAreLatest(rows: Table, runs: Runs, claims: Claims) {
    forall r :: r in runs && runs[r].outcome.Working? && Owns(rows, runs[r]) ==>
      runs[r].revision in claims && claims[runs[r].revision] == r
  }

  ghost predicate VerdictsFromLatest(rows: Table, claims: Claims, verdicts: Verdicts) {
    forall k :: 0 <= k < |verdicts| && verdicts[k].revision in rows ==>
      verdicts[k].revision in claims && claims[verdicts[k].revision] == verdicts[k].run
  }

  /** A run that decided claimed when its row says validation started. */
  ghost predicate DecidedOnTime(rows: Table, runs: Runs) {
    forall r :: r in runs && runs[r].outcome.Decided? && runs[r].revision in rows ==>
      rows[runs[r].revision].started == runs[r].started
  }

  ghost predicate Guarded(rows: Table, runs: Runs, claims: Claims, verdicts: Verdicts) {
    HoldersAreLatest(rows, runs, claims) && VerdictsFromLatest(rows, claims, verdicts) && DecidedOnTime(rows, runs)
  }

  ghost predicate GuardedState(s: State) {
    Guarded(s.core.rows, s.work.runs, s.history.claimant, s.history.verdicts)
  }

  /** No Job claims a revision while an earlier run of it is still at work there. */
  ghost predicate OneRunAtATime(s: State, a: Action) {
    a.ClaimValidation? && Enabled(s, a) ==>
      forall r :: r in s.work.runs && s.work.runs[r].outcome.Working? && s.work.runs[r].revision == a.row ==>
        s.work.runs[r].job != a.job
  }

  ghost predicate Unrepeated(s: State, actions: seq<Action>) {
    forall k :: 0 <= k < |actions| ==> UnrepeatedAt(s, actions, k)
  }

  ghost predicate UnrepeatedAt(s: State, actions: seq<Action>, k: nat)
    requires k < |actions|
  {
    OneRunAtATime(Exec(s, actions[..k]), actions[k])
  }

  lemma {:induction false} UnrepeatedPrefix(s: State, actions: seq<Action>)
    requires Unrepeated(s, actions) && actions != []
    ensures Unrepeated(s, actions[..|actions| - 1])
    ensures OneRunAtATime(Exec(s, actions[..|actions| - 1]), actions[|actions| - 1])
  {
    var prefix := actions[..|actions| - 1];
    assert UnrepeatedAt(s, actions, |actions| - 1);
    forall k | 0 <= k < |prefix| ensures UnrepeatedAt(s, prefix, k) {
      assert UnrepeatedAt(s, actions, k) && prefix[..k] == actions[..k];
    }
  }

  // ----- What the other services may do to a row -----------------------------------------------

  /** Storage and activation move rows only within the unjudged or within the judged side. */
  predicate Sidelong(before: Row, after: Row) {
    && after.digest == before.digest && after.started == before.started
    && (before == after
        || (!Judged(before) && !Judged(after) && before.status != Validating && after.status != Validating
            && after.digest.Some?)
        || (Judged(before) && before.status != Invalid && after.status in {Active, Retired}
            && after.errors == before.errors && after.published == before.published))
  }

  ghost predicate AllSidelong(before: Table, after: Table) {
    after.Keys == before.Keys && forall id :: id in before ==> Sidelong(before[id], after[id])
  }

  /** Nothing of validation moves, and rows only sidelong. */
  ghost predicate Aside(s: State, t: State) {
    && t.core.nextRow == s.core.nextRow && AllSidelong(s.core.rows, t.core.rows)
    && t.work.runs == s.work.runs && s.work.clock <= t.work.clock
    && t.history.claimant == s.history.claimant && t.history.verdicts == s.history.verdicts
  }

  lemma {:induction false} SidelongVerdicts(before: Table, after: Table, verdicts: Verdicts)
    requires AllSidelong(before, after) && VerdictsStand(before, verdicts) && JudgedHaveVerdicts(before, verdicts)
    ensures VerdictsStand(after, verdicts) && JudgedHaveVerdicts(after, verdicts)
  {
  }

  lemma {:induction false} SidelongRuns(before: Table, after: Table, next: nat, runs: Runs, claims: Claims,
                                        verdicts: Verdicts)
    requires AllSidelong(before, after) && Bounded(before, next, runs, verdicts)
    requires OwnersClaimed(before, runs, claims) && Timely(before, runs)
    ensures Bounded(after, next, runs, verdicts) && OwnersClaimed(after, runs, claims) && Timely(after, runs)
  {
  }

  lemma {:induction false} SidelongGuarded(before: Table, after: Table, runs: Runs, claims: Claims, verdicts: Verdicts)
    requires AllSidelong(before, after) && Guarded(before, runs, claims, verdicts)
    ensures Guarded(after, runs, claims, verdicts)
  {
    forall r | r in runs && Owns(after, runs[r]) ensures Owns(before, runs[r]) {
      assert Sidelong(before[runs[r].revision], after[runs[r].revision]);
    }
  }

  lemma {:induction false} AsideKeeps(s: State, t: State)
    requires FencedState(s) && Aside(s, t)
    ensures FencedState(t) && (GuardedState(s) ==> GuardedState(t))
  {
    SidelongVerdicts(s.core.rows, t.core.rows, s.history.verdicts);
    SidelongRuns(s.core.rows, t.core.rows, s.core.nextRow, s.work.runs, s.history.claimant, s.history.verdicts);
    if GuardedState(s) {
      SidelongGuarded(s.core.rows, t.core.rows, s.work.runs, s.history.claimant, s.history.verdicts);
    }
  }

  lemma {:induction false} JoinedKeeps(s: State, t: State, row: Row)
    requires FencedState(s) && Joins(s, t, row)
    ensures FencedState(t) && (GuardedState(s) ==> GuardedState(t))
  {
  }

  lemma {:induction false} DeletionKeeps(s: State, ids: set<nat>)
    requires FencedState(s)
    ensures FencedState(Deleted(s, ids)) && (GuardedState(s) ==> GuardedState(Deleted(s, ids)))
  {
  }

  lemma {:induction false} QuietIsAside(s: State, t: State)
    requires FencedState(s) && Quiet(s, t)
    ensures Aside(s, t)
  {
    forall id | id in s.core.rows ensures Sidelong(s.core.rows[id], t.core.rows[id]) {
      assert Settled(s.core.rows[id], t.core.rows[id]);
    }
  }

  lemma {:induction false} DeactivatedIsAside(s: State, id: nat)
    requires Serving.Coherent(s) && Enabled(s, Deactivate(id))
    ensures Aside(s, Deactivated(s, id))
  {
  }

  lemma {:induction false} RepointedSidelong(rows: Table, active: Option<nat>, id: nat)
    requires id in rows && Judged(rows[id]) && rows[id].status != Invalid
    requires active.Some? && active.value in rows ==> Judged(rows[active.value]) && rows[active.value].status != Invalid
    ensures AllSidelong(rows, Repointed(rows, active, id))
  {
  }

  lemma {:induction false} PromotedIsAside(s: State)
    requires Serving.Coherent(s) && Enabled(s, CommitPromotion)
    ensures Aside(s, Promoted(s))
  {
    if Promotable(s) && !Lifecycle.Serving(s, s.holder.row) {
      RepointedSidelong(s.core.rows, s.site.active, s.holder.row);
    }
  }

  /** Every step but validation's own, a deletion and an insertion. */
  lemma {:induction false} OtherStepsAreAside(s: State, a: Action)
    requires FencedState(s) && Serving.Coherent(s) && !Validates(a) && !a.DeleteRows? && !Inserts(a)
    ensures Aside(s, Step(s, a))
  {
    if Quietly(a) {
      QuietSteps(s, a);
      QuietIsAside(s, Step(s, a));
    } else if Enabled(s, a) {
      if a.Deactivate? { DeactivatedIsAside(s, a.row); }
      else if a.CommitPromotion? { PromotedIsAside(s); }
    }
  }

  // ----- Validation's own steps ----------------------------------------------------------------

  lemma {:induction false} UnjudgedHasNone(rows: Table, runs: Runs, verdicts: Verdicts, id: nat)
    requires VerdictsStand(rows, verdicts) && DecisionsLogged(runs, verdicts) && id in rows && !Judged(rows[id])
    ensures !HasVerdict(verdicts, id)
    ensures forall r :: r in runs && runs[r].revision == id ==> !runs[r].outcome.Decided?
  {
  }

  /** The row a claim leaves. */
  function ClaimedRow(row: Row, job: nat, clock: nat): Row {
    row.(status := Validating, owner := Some(job), started := clock)
  }

  lemma {:induction false} ClaimFenced(core: Core, runs: Runs, claims: Claims, verdicts: Verdicts, run: nat, job: nat,
                                       id: nat, clock: nat)
    requires Fenced(core, runs, claims, verdicts) && Past(runs, clock) && run !in runs
    requires id in core.rows && Claimable(core.rows[id], clock)
    ensures Fenced(core.(rows := core.rows[id := ClaimedRow(core.rows[id], job, clock)]),
                   runs[run := Run(job, id, clock, Working)], claims[id := run], verdicts)
  {
    UnjudgedHasNone(core.rows, runs, verdicts, id);
    var more := runs[run := Run(job, id, clock, Working)];
    assert DecisionsLogged(more, verdicts) by {
      forall r | r in more && more[r].outcome.Decided? ensures r in runs && more[r] == runs[r] {
      }
    }
  }

  lemma {:induction false} ClaimGuarded(core: Core, runs: Runs, claims: Claims, verdicts: Verdicts, run: nat, job: nat,
                                        id: nat, clock: nat)
    requires Fenced(core, runs, claims, verdicts) && Guarded(core.rows, runs, claims, verdicts) && run !in runs
    requires id in core.rows && Claimable(core.rows[id], clock)
    requires forall r :: r in runs && runs[r].outcome.Working? && runs[r].revision == id ==> runs[r].job != job
    ensures Guarded(core.rows[id := ClaimedRow(core.rows[id], job, clock)], runs[run := Run(job, id, clock, Working)],
                    claims[id := run], verdicts)
  {
    UnjudgedHasNone(core.rows, runs, verdicts, id);
  }

  /** What a verdict adds to the log and the table leaves every earlier one standing. */
  lemma {:induction false} VerdictStands(rows: Table, verdicts: Verdicts, id: nat, run: nat, v: Verdict)
    requires VerdictsStand(rows, verdicts) && OneVerdictEach(verdicts) && id in rows && rows[id].status == Validating
    requires rows[id].digest.Some?
    ensures var more := verdicts + [VerdictEvent(id, run, v)];
      VerdictsStand(rows[id := JudgedRow(rows[id], v)], more) && OneVerdictEach(more)
  {
    var more := verdicts + [VerdictEvent(id, run, v)];
    assert forall k :: 0 <= k < |verdicts| ==> more[k] == verdicts[k] && verdicts[k].revision != id;
  }

  lemma {:induction false} VerdictLogged(rows: Table, verdicts: Verdicts, id: nat, run: nat, v: Verdict)
    requires JudgedHaveVerdicts(rows, verdicts) && id in rows
    ensures JudgedHaveVerdicts(rows[id := JudgedRow(rows[id], v)], verdicts + [VerdictEvent(id, run, v)])
  {
    var more := verdicts + [VerdictEvent(id, run, v)];
    assert more[|verdicts|].revision == id;
    forall q | q in rows && q != id && Judged(rows[q]) ensures HasVerdict(more, q) {
      assert HasVerdict(verdicts, q);
      var k :| 0 <= k < |verdicts| && verdicts[k].revision == q;
      assert more[k].revision == q;
    }
  }

  lemma {:induction false} DecisionLogged(runs: Runs, verdicts: Verdicts, run: nat, v: Verdict)
    requires DecisionsLogged(runs, verdicts) && run in runs
    ensures DecisionsLogged(runs[run := runs[run].(outcome := Decided(v))],
                            verdicts + [VerdictEvent(runs[run].revision, run, v)])
  {
    var after := runs[run := runs[run].(outcome := Decided(v))];
    var more := verdicts + [VerdictEvent(runs[run].revision, run, v)];
    forall r | r in after && after[r].outcome.Decided?
      ensures exists k :: 0 <= k < |more| && more[k] == VerdictEvent(after[r].revision, r, after[r].outcome.verdict)
    {
      if r == run {
        assert more[|verdicts|] == VerdictEvent(after[r].revision, r, v);
      } else {
        var k :| 0 <= k < |verdicts| && verdicts[k] == VerdictEvent(runs[r].revision, r, runs[r].outcome.verdict);
        assert more[k] == verdicts[k];
      }
    }
  }

  /** A run's outcome is no concern of the rows. */
  lemma {:induction false} ConclusionFenced(rows: Table, next: nat, runs: Runs, claims: Claims, verdicts: Verdicts,
                                            run: nat, outcome: Outcome)
    requires Bounded(rows, next, runs, verdicts) && OwnersClaimed(rows, runs, claims) && Timely(rows, runs)
             && run in runs
    ensures var after := runs[run := runs[run].(outcome := outcome)];
      Bounded(rows, next, after, verdicts) && OwnersClaimed(rows, after, claims) && Timely(rows, after)
  {
  }

  lemma {:induction false} VerdictFenced(core: Core, runs: Runs, claims: Claims, verdicts: Verdicts, run: nat,
                                         v: Verdict)
    requires Fenced(core, runs, claims, verdicts) && run in runs && Owns(core.rows, runs[run])
    ensures var id := runs[run].revision;
      Fenced(core.(rows := core.rows[id := JudgedRow(core.rows[id], v)]),
             runs[run := runs[run].(outcome := Decided(v))], claims, verdicts + [VerdictEvent(id, run, v)])
  {
    var id := runs[run].revision;
    VerdictStands(core.rows, verdicts, id, run, v);
    VerdictLogged(core.rows, verdicts, id, run, v);
    DecisionLogged(runs, verdicts, run, v);
    ConclusionFenced(core.rows, core.nextRow, runs, claims, verdicts, run, Decided(v));
  }

  lemma {:induction false} VerdictGuarded(core: Core, runs: Runs, claims: Claims, verdicts: Verdicts, run: nat,
                                          v: Verdict)
    requires Fenced(core, runs, claims, verdicts) && Guarded(core.rows, runs, claims, verdicts)
    requires run in runs && runs[run].outcome.Working? && Owns(core.rows, runs[run])
    ensures var id := runs[run].revision;
      Guarded(core.rows[id := JudgedRow(core.rows[id], v)], runs[run := runs[run].(outcome := Decided(v))], claims,
              verdicts + [VerdictEvent(id, run, v)])
  {
    var id := runs[run].revision;
    UnjudgedHasNone(core.rows, runs, verdicts, id);
    assert claims[id] == run;
    var more := verdicts + [VerdictEvent(id, run, v)];
    assert forall k :: 0 <= k < |verdicts| ==> more[k] == verdicts[k];
  }

  /** A run that gives up, or is lost, changes nothing. */
  lemma {:induction false} GaveUpKeeps(core: Core, runs: Runs, claims: Claims, verdicts: Verdicts, run: nat)
    requires Fenced(core, runs, claims, verdicts) && run in runs && runs[run].outcome.Working?
    ensures var after := runs[run := runs[run].(outcome := GaveUp)];
      && Fenced(core, after, claims, verdicts)
      && (Guarded(core.rows, runs, claims, verdicts) ==> Guarded(core.rows, after, claims, verdicts))
  {
    var after := runs[run := runs[run].(outcome := GaveUp)];
    ConclusionFenced(core.rows, core.nextRow, runs, claims, verdicts, run, GaveUp);
    assert DecisionsLogged(after, verdicts) by {
      forall r | r in after && after[r].outcome.Decided? ensures after[r] == runs[r] {
      }
    }
  }

  lemma {:induction false} RevertKeeps(core: Core, runs: Runs, claims: Claims, verdicts: Verdicts, id: nat)
    requires Fenced(core, runs, claims, verdicts) && id in core.rows && core.rows[id].status == Validating
    ensures var rows := core.rows[id := core.rows[id].(status := Materialized, owner := None, started := 0)];
      && Fenced(core.(rows := rows), runs, claims, verdicts)
      && (Guarded(core.rows, runs, claims, verdicts) ==> Guarded(rows, runs, claims, verdicts))
  {
    UnjudgedHasNone(core.rows, runs, verdicts, id);
  }

  /** One conclusion, as the state sees it. */
  lemma {:induction false} VerdictKeeps(s: State, run: nat, v: Verdict)
    requires FencedState(s) && run in s.work.runs && s.work.runs[run].outcome.Working?
    ensures FencedState(VerdictReached(s, run, v)) && (GuardedState(s) ==> GuardedState(VerdictReached(s, run, v)))
  {
    if Owns(s.core.rows, s.work.runs[run]) {
      VerdictFenced(s.core, s.work.runs, s.history.claimant, s.history.verdicts, run, v);
      if GuardedState(s) { VerdictGuarded(s.core, s.work.runs, s.history.claimant, s.history.verdicts, run, v); }
    } else {
      GaveUpKeeps(s.core, s.work.runs, s.history.claimant, s.history.verdicts, run);
    }
  }

  lemma {:induction false} ReversionKeeps(s: State, run: nat)
    requires FencedState(s) && run in s.work.runs && s.work.runs[run].outcome.Working?
    ensures FencedState(ClaimReverted(s, run)) && (GuardedState(s) ==> GuardedState(ClaimReverted(s, run)))
  {
    GaveUpKeeps(s.core, s.work.runs, s.history.claimant, s.history.verdicts, run);
    if Owns(s.core.rows, s.work.runs[run]) {
      RevertKeeps(s.core, Concluded(s.work, run, GaveUp).runs, s.history.claimant, s.history.verdicts,
                  s.work.runs[run].revision);
    }
  }

  lemma {:induction false} ClaimKeeps(s: State, run: nat, job: nat, id: nat)
    requires FencedState(s) && Enabled(s, ClaimValidation(run, job, id))
    ensures FencedState(ValidationClaimed(s, run, job, id))
    ensures GuardedState(s) && OneRunAtATime(s, ClaimValidation(run, job, id)) ==>
              GuardedState(ValidationClaimed(s, run, job, id))
  {
    ClaimFenced(s.core, s.work.runs, s.history.claimant, s.history.verdicts, run, job, id, s.work.clock);
    if GuardedState(s) && OneRunAtATime(s, ClaimValidation(run, job, id)) {
      ClaimGuarded(s.core, s.work.runs, s.history.claimant, s.history.verdicts, run, job, id, s.work.clock);
    }
  }

  // ----- Every step ------------------------------------------------------------------------

  lemma {:induction false} ValidatingKeeps(s: State, a: Action)
    requires FencedState(s) && Enabled(s, a) && Validates(a)
    ensures FencedState(Apply(s, a)) && (GuardedState(s) && OneRunAtATime(s, a) ==> GuardedState(Apply(s, a)))
  {
    if a.ClaimValidation? {
      ClaimKeeps(s, a.run, a.job, a.row);
    } else if a.RevertClaim? {
      ReversionKeeps(s, a.run);
    } else if a.ReachVerdict? {
      VerdictKeeps(s, a.run, a.verdict);
    } else {
      GaveUpKeeps(s.core, s.work.runs, s.history.claimant, s.history.verdicts, a.run);
    }
  }

  lemma {:induction false} InsertingKeeps(s: State, a: Action)
    requires FencedState(s) && Inserts(a)
    ensures FencedState(Step(s, a)) && (GuardedState(s) ==> GuardedState(Step(s, a)))
  {
    InsertingJoins(s, a);
    if Quiet(s, Step(s, a)) {
      QuietIsAside(s, Step(s, a));
      AsideKeeps(s, Step(s, a));
    } else {
      JoinedKeeps(s, Step(s, a), Step(s, a).core.rows[s.core.nextRow]);
    }
  }

  lemma {:induction false} StepFenced(s: State, a: Action)
    requires FencedState(s) && Serving.Coherent(s)
    ensures FencedState(Step(s, a)) && (GuardedState(s) && OneRunAtATime(s, a) ==> GuardedState(Step(s, a)))
  {
    if Inserts(a) {
      InsertingKeeps(s, a);
    } else if !Validates(a) && !a.DeleteRows? {
      OtherStepsAreAside(s, a);
      AsideKeeps(s, Step(s, a));
    } else if Enabled(s, a) {
      if a.DeleteRows? { DeletionKeeps(s, a.ids); } else { ValidatingKeeps(s, a); }
    }
  }

  lemma {:induction false} RunFenced(s: State, actions: seq<Action>)
    requires FencedState(s) && Serving.Coherent(s)
    ensures FencedState(Exec(s, actions)) && Serving.Coherent(Exec(s, actions))
  {
    if actions != [] {
      RunFenced(s, actions[..|actions| - 1]);
      StepFenced(Exec(s, actions[..|actions| - 1]), actions[|actions| - 1]);
      Serving.StepCoherent(Exec(s, actions[..|actions| - 1]), actions[|actions| - 1]);
    }
  }

  lemma {:induction false} RunGuarded(s: State, actions: seq<Action>)
    requires FencedState(s) && Serving.Coherent(s) && GuardedState(s) && Unrepeated(s, actions)
    ensures GuardedState(Exec(s, actions))
  {
    if actions != [] {
      UnrepeatedPrefix(s, actions);
      RunGuarded(s, actions[..|actions| - 1]);
      RunFenced(s, actions[..|actions| - 1]);
      StepFenced(Exec(s, actions[..|actions| - 1]), actions[|actions| - 1]);
    }
  }

  /**
   In every interleaving each revision gets at most one verdict, and a surviving revision's
   status, errors and published set are that verdict's. It was reached by the latest claimant as
   long as no Job ran a second time on a revision it was still at work on.
   */
  lemma {:induction false} OneVerdictFromTheLatestClaim(s: State, actions: seq<Action>)
    requires Fresh(s)
    ensures var t := Exec(s, actions);
      && OneVerdictEach(t.history.verdicts)
      && (forall id :: id in t.core.rows ==>
            (Judged(t.core.rows[id]) <==> HasVerdict(t.history.verdicts, id)))
      && (forall k :: 0 <= k < |t.history.verdicts| && t.history.verdicts[k].revision in t.core.rows ==>
            Records(t.core.rows[t.history.verdicts[k].revision], t.history.verdicts[k].verdict))
      && (Unrepeated(s, actions) ==> VerdictsFromLatest(t.core.rows, t.history.claimant, t.history.verdicts))
  {
    RunFenced(s, actions);
    if Unrepeated(s, actions) { RunGuarded(s, actions); }
  }

  // ----- What a run's own steps write -------------------------------------------------------------

  /** A run that still holds its row. */
  ghost predicate Holds(s: State, run: nat) {
    && run in s.work.runs && s.work.runs[run].outcome == Working
    && var r := s.work.runs[run];
       r.revision in s.core.rows && s.core.rows[r.revision].status == Validating
       && s.core.rows[r.revision].owner == Some(r.job)
  }

  /**
   A run's verdict lands whole, or not at all: a run that still holds its row writes its status, its
   errors and its published set there and nowhere else, and has decided; one that does not gives up.
   */
  lemma {:induction false} VerdictLandsExactly(s: State, run: nat, v: Verdict)
    requires run in s.work.runs && s.work.runs[run].outcome == Working
    requires if v.valid then v.errors == [] else v.published == map[]
    ensures var t, id := Step(s, ReachVerdict(run, v)), s.work.runs[run].revision;
      if Holds(s, run) then
        && t.core == s.core.(rows := s.core.rows[id := t.core.rows[id]])
        && t.core.rows[id].status == (if v.valid then Valid else Invalid)
        && t.core.rows[id].errors == v.errors && t.core.rows[id].published == v.published
        && t.core.rows[id].digest == s.core.rows[id].digest && t.core.rows[id].selection == s.core.rows[id].selection
        && t.core.rows[id].started == s.core.rows[id].started
        && t.work == s.work.(runs := s.work.runs[run := s.work.runs[run].(outcome := Decided(v))])
        && t.history.verdicts == s.history.verdicts + [VerdictEvent(id, run, v)]
      else t == s.(work := s.work.(runs := s.work.runs[run := s.work.runs[run].(outcome := GaveUp)]))
  {
    assert Step(s, ReachVerdict(run, v)) == VerdictReached(s, run, v);
  }

  /** Environment trouble gives the claim back: the row is materialized again, unowned, for any run to claim. */
  lemma {:induction false} ReversalGivesBack(s: State, run: nat)
    requires run in s.work.runs && s.work.runs[run].outcome == Working
    ensures var t, id := Step(s, RevertClaim(run)), s.work.runs[run].revision;
      if Holds(s, run) then
        && t.core == s.core.(rows := s.core.rows[id :=
             s.core.rows[id].(status := Materialized, owner := None, started := 0)])
        && forall other, job :: other !in t.work.runs ==> Enabled(t, ClaimValidation(other, job, id))
      else t.core == s.core
  {
    assert Step(s, RevertClaim(run)) == ClaimReverted(s, run);
  }

  // ----- The lease -------------------------------------------------------------------------------

  /**
   A revision can be claimed exactly when it is materialized, or has been validating for more than
   half an hour; the claim then starts at the clock, under the claiming Job.
   */
  lemma {:induction false} ClaimableExactly(s: State, run: nat, job: nat, id: nat)
    ensures Enabled(s, ClaimValidation(run, job, id)) <==>
              && run !in s.work.runs && id in s.core.rows
              && (s.core.rows[id].status == Materialized
                  || (s.core.rows[id].status == Validating && s.work.clock > s.core.rows[id].started + 1800))
    ensures Enabled(s, ClaimValidation(run, job, id)) ==>
              var t := Step(s, ClaimValidation(run, job, id));
              && t.core.rows == s.core.rows[id := t.core.rows[id]]
              && t.core.rows[id].status == Validating && t.core.rows[id].owner == Some(job)
              && t.core.rows[id].started == s.work.clock && t.core.rows[id].digest == s.core.rows[id].digest
              && t.work.runs == s.work.runs[run := Run(job, id, s.work.clock, Working)]
  {
  }

  ghost predicate RowStands(s: State, t: State, id: nat)
    requires id in s.core.rows
  {
    id in t.core.rows && t.core.rows[id] == s.core.rows[id]
  }

  lemma {:induction false} InsertingLeavesValidating(s: State, a: Action, id: nat)
    requires Inserts(a) && id in s.core.rows && s.core.rows[id].status == Validating && id < s.core.nextRow
    ensures RowStands(s, Step(s, a), id)
  {
    InsertingJoins(s, a);
    if Quiet(s, Step(s, a)) { assert Effects.Settled(s.core.rows[id], Step(s, a).core.rows[id]); }
  }

  lemma {:induction false} SidelongLeavesValidating(s: State, t: State, id: nat)
    requires Aside(s, t) && id in s.core.rows && s.core.rows[id].status == Validating
    ensures RowStands(s, t, id)
  {
    assert Sidelong(s.core.rows[id], t.core.rows[id]);
  }

  /** A conclusion of the run that holds the row. */
  predicate HoldersOwn(s: State, a: Action, id: nat) {
    && (a.ReachVerdict? || a.RevertClaim?) && a.run in s.work.runs && s.work.runs[a.run].revision == id
    && id in s.core.rows && s.core.rows[id].owner == Some(s.work.runs[a.run].job)
  }

  /**
   Within its lease a revision stays with its owner: only the owner's verdict or reversal moves it,
   or its deletion.
   */
  lemma {:induction false} LeaseHolds(s: State, a: Action, id: nat)
    requires FencedState(s) && Serving.Coherent(s) && !a.DeleteRows?
    requires id in s.core.rows && s.core.rows[id].status == Validating
    requires s.work.clock <= s.core.rows[id].started + 1800
    ensures RowStands(s, Step(s, a), id) || HoldersOwn(s, a, id)
  {
    if Inserts(a) {
      InsertingLeavesValidating(s, a, id);
    } else if !Validates(a) {
      OtherStepsAreAside(s, a);
      SidelongLeavesValidating(s, Step(s, a), id);
    } else if Enabled(s, a) {
      ValidationWithinLease(s, a, id);
    }
  }

  lemma {:induction false} ValidationWithinLease(s: State, a: Action, id: nat)
    requires Enabled(s, a) && Validates(a) && id in s.core.rows && s.core.rows[id].status == Validating
    requires s.work.clock <= s.core.rows[id].started + 1800
    ensures RowStands(s, Apply(s, a), id) || HoldersOwn(s, a, id)
  {
    if a.ClaimValidation? { assert Apply(s, a) == ValidationClaimed(s, a.run, a.job, a.row); }
    else if a.ReachVerdict? { assert Apply(s, a) == VerdictReached(s, a.run, a.verdict); }
    else if a.RevertClaim? { assert Apply(s, a) == ClaimReverted(s, a.run); }
    else { assert Apply(s, a) == WorkerLost(s, a.run); }
  }

  // ----- A run whose claim was taken over --------------------------------------------------------

  /** Another run has claimed the revision since. */
  ghost predicate Overtaken(s: State, run: nat) {
    && run in s.work.runs && !s.work.runs[run].outcome.Decided?
    && s.work.runs[run].revision in s.history.claimant
    && s.history.claimant[s.work.runs[run].revision] != run
  }

  /** The fence lets an overtaken run through exactly when the run that overtook it belongs to the same Job. */
  lemma {:induction false} TheFenceSeesJobs(s: State, run: nat)
    requires FencedState(s) && Overtaken(s, run) && s.work.runs[run].revision in s.core.rows
    requires s.core.rows[s.work.runs[run].revision].status == Validating
    ensures var latest := s.history.claimant[s.work.runs[run].revision];
      && latest in s.work.runs
      && (Owns(s.core.rows, s.work.runs[run]) <==> s.work.runs[latest].job == s.work.runs[run].job)
  {
  }

  lemma {:induction false} LoudRunsUntouched(s: State, a: Action)
    requires !Validates(a) && !Quietly(a) && !Inserts(a)
    ensures Step(s, a).work.runs == s.work.runs && Step(s, a).history.claimant == s.history.claimant
  {
  }

  lemma {:induction false} RunsUntouched(s: State, a: Action)
    requires !Validates(a)
    ensures Step(s, a).work.runs == s.work.runs && Step(s, a).history.claimant == s.history.claimant
  {
    if Quietly(a) { QuietSteps(s, a); }
    else if Inserts(a) { InsertingJoins(s, a); }
    else { LoudRunsUntouched(s, a); }
  }

  /** A run's own last steps. */
  predicate Finishes(a: Action, run: nat) {
    (a.ReachVerdict? || a.RevertClaim? || a.LoseWorker? || a.PersistDiscovery?) && a.run == run
  }

  lemma {:induction false} OwnStepsWriteNothing(s: State, a: Action, run: nat)
    requires run in s.work.runs && !s.work.runs[run].outcome.Decided? && Finishes(a, run)
    requires s.work.runs[run].outcome.Working? ==> !Owns(s.core.rows, s.work.runs[run])
    ensures Step(s, a).core == s.core && Step(s, a).work.files == s.work.files
  {
    if Enabled(s, a) {
      if a.ReachVerdict? { assert Apply(s, a) == VerdictReached(s, run, a.verdict); }
      else if a.RevertClaim? { assert Apply(s, a) == ClaimReverted(s, run); }
      else { assert Apply(s, a) == WorkerLost(s, run); }
    }
  }

  /** What a run's own final steps do once it was overtaken: nothing. */
  lemma {:induction false} OvertakenRunWritesNothing(s: State, a: Action, run: nat)
    requires GuardedState(s) && Overtaken(s, run) && Finishes(a, run)
    ensures Step(s, a).core == s.core && Step(s, a).work.files == s.work.files
  {
    OwnStepsWriteNothing(s, a, run);
  }

  lemma {:induction false} OvertakenStays(s: State, a: Action, run: nat)
    requires GuardedState(s) && Overtaken(s, run)
    ensures Overtaken(Step(s, a), run)
  {
    if !Validates(a) {
      RunsUntouched(s, a);
    } else if Enabled(s, a) {
      ValidationLeavesOvertaken(s, a, run);
    }
  }

  lemma {:induction false} ValidationLeavesOvertaken(s: State, a: Action, run: nat)
    requires GuardedState(s) && Overtaken(s, run) && Enabled(s, a) && Validates(a)
    ensures Overtaken(Apply(s, a), run)
  {
    if a.ClaimValidation? {
      assert Apply(s, a) == ValidationClaimed(s, a.run, a.job, a.row);
    } else if a.ReachVerdict? {
      assert Apply(s, a) == VerdictReached(s, a.run, a.verdict);
      ConclusionLeavesOvertaken(s, Apply(s, a), a.run, Decided(a.verdict), run);
    } else if a.RevertClaim? {
      assert Apply(s, a) == ClaimReverted(s, a.run);
      ConclusionLeavesOvertaken(s, Apply(s, a), a.run, GaveUp, run);
    } else {
      assert Apply(s, a) == WorkerLost(s, a.run);
      ConclusionLeavesOvertaken(s, Apply(s, a), a.run, GaveUp, run);
    }
  }

  /** A run that concludes, its own way when it owns its row, changes no other run and no claim. */
  lemma {:induction false} ConclusionLeavesOvertaken(s: State, t: State, other: nat, outcome: Outcome, run: nat)
    requires GuardedState(s) && Overtaken(s, run) && other in s.work.runs && s.work.runs[other].outcome.Working?
    requires t.work.runs == s.work.runs[other := s.work.runs[other].(outcome :=
                              if Owns(s.core.rows, s.work.runs[other]) then outcome else GaveUp)]
    requires t.history.claimant == s.history.claimant
    ensures Overtaken(t, run)
  {
  }

  lemma {:induction false} OvertakenForever(s: State, actions: seq<Action>, run: nat)
    requires FencedState(s) && Serving.Coherent(s) && GuardedState(s) && Overtaken(s, run) && Unrepeated(s, actions)
    ensures Overtaken(Exec(s, actions), run)
  {
    if actions != [] {
      UnrepeatedPrefix(s, actions);
      OvertakenForever(s, actions[..|actions| - 1], run);
      RunGuarded(s, actions[..|actions| - 1]);
      OvertakenStays(Exec(s, actions[..|actions| - 1]), actions[|actions| - 1], run);
    }
  }

  /**
   Once its claim was taken over a run never decides anything, whatever happens next, and each
   of its own final steps leaves every revision row and every Script File row alone: as long as
   no Job runs a second time on a revision it is still at work on, which FencingExact shows is
   exactly what this needs.
   */
  lemma {:induction false} OvertakenRunIsInert(origin: State, earlier: seq<Action>, later: seq<Action>, run: nat,
                                               a: Action)
    requires Fresh(origin) && Unrepeated(origin, earlier) && Unrepeated(Exec(origin, earlier), later)
    requires Overtaken(Exec(origin, earlier), run)
    ensures var t := Exec(Exec(origin, earlier), later);
      && Overtaken(t, run)
      && (Finishes(a, run) ==> Step(t, a).core == t.core && Step(t, a).work.files == t.work.files)
  {
    var s := Exec(origin, earlier);
    RunFenced(origin, earlier);
    RunGuarded(origin, earlier);
    OvertakenForever(s, later, run);
    RunGuarded(s, later);
    if Finishes(a, run) {
      OvertakenRunWritesNothing(Exec(s, later), a, run);
    }
  }

  // ----- A verdict is final ----------------------------------------------------------------------

  lemma {:induction false} VerdictsOnlyGrow(s: State, actions: seq<Action>)
    ensures s.history.verdicts <= Exec(s, actions).history.verdicts
  {
    if actions != [] {
      VerdictsOnlyGrow(s, actions[..|actions| - 1]);
      VerdictLogStep(Exec(s, actions[..|actions| - 1]), actions[|actions| - 1]);
    }
  }

  lemma {:induction false} VerdictLogStep(s: State, a: Action)
    ensures s.history.verdicts <= Step(s, a).history.verdicts
  {
    if Quietly(a) { QuietSteps(s, a); }
    else if Inserts(a) { InsertingJoins(s, a); }
    else { LoudLogStep(s, a); }
  }

  lemma {:induction false} LoudLogStep(s: State, a: Action)
    requires !Quietly(a) && !Inserts(a)
    ensures s.history.verdicts <= Step(s, a).history.verdicts
  {
  }

  /**
   A judged row keeps its verdict through anything: nothing re-drives a digest-bearing INVALID
   revision, and a valid one keeps its errors and its published set while it is promoted,
   retired and re-staged.
   */
  lemma {:induction false} VerdictIsFinal(origin: State, earlier: seq<Action>, later: seq<Action>, id: nat)
    requires Fresh(origin)
    requires id in Exec(origin, earlier).core.rows && Judged(Exec(origin, earlier).core.rows[id])
    ensures var s := Exec(origin, earlier); var t := Exec(s, later);
      id in t.core.rows ==>
        && Judged(t.core.rows[id])
        && (t.core.rows[id].status == Invalid <==> s.core.rows[id].status == Invalid)
        && t.core.rows[id].errors == s.core.rows[id].errors
        && t.core.rows[id].published == s.core.rows[id].published
  {
    var s := Exec(origin, earlier);
    RunFenced(origin, earlier);
    RunFenced(s, later);
    VerdictsOnlyGrow(s, later);
    var t := Exec(s, later);
    if id in t.core.rows {
      SameVerdict(s.core.rows, s.history.verdicts, t.core.rows, t.history.verdicts, id);
    }
  }

  lemma {:induction false} SameVerdict(before: Table, verdicts: Verdicts, after: Table, laterVerdicts: Verdicts,
                                       id: nat)
    requires VerdictsStand(before, verdicts) && JudgedHaveVerdicts(before, verdicts)
    requires VerdictsStand(after, laterVerdicts) && verdicts <= laterVerdicts
    requires id in before && Judged(before[id]) && id in after
    ensures Judged(after[id]) && (after[id].status == Invalid <==> before[id].status == Invalid)
    ensures after[id].errors == before[id].errors && after[id].published == before[id].published
  {
    assert HasVerdict(verdicts, id);
    var k :| 0 <= k < |verdicts| && verdicts[k].revision == id;
    assert laterVerdicts[k] == verdicts[k];
  }
}
