/**
 That the assumption behind the validation fence is exactly the one it needs. The fence compares
 Jobs, so a Job run a second time on a revision its first run is still at work on passes it twice.
 */
module FencingExact {
  import opened Prelude
  import opened Lifecycle
  import opened Fencing
  import Serving

  /** A run whose claim was taken over whose verdict would still land. */
  ghost predicate Breach(s: State, run: nat, v: Verdict) {
    Overtaken(s, run) && Consistent(v) && Step(s, ReachVerdict(run, v)).core != s.core
  }

  /** Some continuation in which no further Job runs twice comes to a breach. */
  ghost predicate Breached(s: State) {
    exists actions, run, v :: Unrepeated(s, actions) && Breach(Exec(s, actions), run, v)
  }

  lemma {:induction false} OvertakenOwnerBreaches(s: State, run: nat, v: Verdict)
    requires Overtaken(s, run) && s.work.runs[run].outcome.Working? && Owns(s.core.rows, s.work.runs[run])
             && Consistent(v)
    ensures Breach(s, run, v)
  {
    var id := s.work.runs[run].revision;
    assert Step(s, ReachVerdict(run, v)) == VerdictReached(s, run, v);
    assert VerdictReached(s, run, v).core.rows[id].status != s.core.rows[id].status;
  }

  lemma {:induction false} RepetitionOvertakes(s: State, a: Action, r: nat)
    requires a.ClaimValidation? && Enabled(s, a) && r in s.work.runs && s.work.runs[r].outcome.Working?
    requires s.work.runs[r].revision == a.row && s.work.runs[r].job == a.job
    ensures var t := Step(s, a);
      Overtaken(t, r) && t.work.runs[r].outcome.Working? && Owns(t.core.rows, t.work.runs[r])
  {
    assert Step(s, a) == ValidationClaimed(s, a.run, a.job, a.row);
  }

  lemma {:induction false} RepetitionBreaches(s: State, a: Action)
    requires !OneRunAtATime(s, a)
    ensures Breached(Step(s, a))
  {
    var r :| r in s.work.runs && s.work.runs[r].outcome.Working? && s.work.runs[r].revision == a.row
             && s.work.runs[r].job == a.job;
    var t, v := Step(s, a), Verdict(true, [], map[], map[]);
    RepetitionOvertakes(s, a, r);
    OvertakenOwnerBreaches(t, r, v);
    assert Unrepeated(t, []) && Exec(t, []) == t;
  }

  lemma {:induction false} GuardedIsNotBreached(s: State)
    requires FencedState(s) && Serving.Coherent(s) && GuardedState(s)
    ensures !Breached(s)
  {
    forall actions, run, v | Unrepeated(s, actions) ensures !Breach(Exec(s, actions), run, v) {
      RunGuarded(s, actions);
      if Overtaken(Exec(s, actions), run) {
        OvertakenRunWritesNothing(Exec(s, actions), ReachVerdict(run, v), run);
      }
    }
  }

  /**
   From any state the fence holds in, a step starts no second run of a Job if and only if no
   continuation without second runs lets an overtaken run decide.
   */
  lemma {:induction false} OneRunAtATimeIsExact(s: State, a: Action)
    requires FencedState(s) && Serving.Coherent(s) && GuardedState(s)
    ensures OneRunAtATime(s, a) <==> !Breached(Step(s, a))
  {
    if OneRunAtATime(s, a) {
      StepFenced(s, a);
      Serving.StepCoherent(s, a);
      GuardedIsNotBreached(Step(s, a));
    } else {
      RepetitionBreaches(s, a);
    }
  }

  // ----- The run that shows it -------------------------------------------------------------------------

  /** An empty tree staged, with nothing validated yet. */
  const STAGE: seq<Action> := [BeginIngest(map[]), LookUpRow, ClaimWrite, VerifyWritten, SettleWritten]

  const EMPTY: Tree := map[]

  function RowWith(status: Status): Row { NewRowFor(EMPTY, map[], status) }

  /** The project with its one row, while the staging holds its lock. */
  function WhileStaging(s: State, stage: StagePhase): State {
    s.(core := s.core.(rows := map[0 := RowWith(Staging)], nextRow := 1),
       holder := Storing(EMPTY, map[], false, None, stage))
  }

  function Staged(s: State): State {
    s.(core := s.core.(rows := map[0 := RowWith(Materialized)], nextRow := 1),
       holder := Accepting(EMPTY, 0, Materialized, false, None))
  }

  lemma {:induction false} StagingOpens(s: State)
    requires Fresh(s) && !s.site.uploaded
    ensures Exec(s, STAGE[..1]) == s.(holder := Storing(EMPTY, map[], false, None, Lookup))
  {
    assert Selected(s.work.files) == map[];
    ExecTo(s, STAGE, 1, s.(holder := Storing(EMPTY, map[], false, None, Lookup)));
  }

  lemma {:induction false} StagingLooksUp(s: State)
    requires Fresh(s) && !s.site.uploaded
    ensures Exec(s, STAGE[..2]) == WhileStaging(s, Decide(0, Staging))
  {
    StagingOpens(s);
    ExecTo(s, STAGE, 2, WhileStaging(s, Decide(0, Staging)));
  }

  lemma {:induction false} StagingClaims(s: State)
    requires Fresh(s) && !s.site.uploaded
    ensures Exec(s, STAGE[..3]) == WhileStaging(s, Writing(0, {}))
  {
    StagingLooksUp(s);
    assert EMPTY.Keys == {};
    assert map[0 := RowWith(Staging)][0 := RowWith(Staging)] == map[0 := RowWith(Staging)];
    ExecTo(s, STAGE, 3, WhileStaging(s, Writing(0, {})));
  }

  lemma {:induction false} StagingVerifies(s: State)
    requires Fresh(s) && !s.site.uploaded
    ensures Exec(s, STAGE[..4]) == WhileStaging(s, Verified(0))
  {
    StagingClaims(s);
    ExecTo(s, STAGE, 4, WhileStaging(s, Verified(0)));
  }

  lemma {:induction false} StagingEnds(s: State)
    requires Fresh(s) && !s.site.uploaded
    ensures Exec(s, STAGE) == Staged(s)
  {
    StagingVerifies(s);
    assert map[0 := RowWith(Staging)][0 := RowWith(Materialized)] == map[0 := RowWith(Materialized)];
    ExecTo(s, STAGE, 5, Staged(s));
    assert STAGE[..5] == STAGE;
  }

  /** A Job validates the staged revision, outlives its lease, is run again, and the first run decides. */
  function Repeated(job: nat, v: Verdict): seq<Action> {
    STAGE + [ClaimValidation(0, job, 0), Tick(LEASE + 1), ClaimValidation(1, job, 0), ReachVerdict(0, v)]
  }

  function Late(s: State): State { s.(work := s.work.(clock := s.work.clock + LEASE + 1)) }

  /** The second run has claimed and the first is still at work. */
  function BothAtWork(s: State, job: nat): State {
    ValidationClaimed(Late(ValidationClaimed(Staged(s), 0, job, 0)), 1, job, 0)
  }

  lemma {:induction false} FirstClaims(s: State, job: nat, v: Verdict)
    requires Fresh(s) && !s.site.uploaded
    ensures Exec(s, Repeated(job, v)[..6]) == ValidationClaimed(Staged(s), 0, job, 0)
  {
    StagingEnds(s);
    assert Repeated(job, v)[..5] == STAGE;
    ExecTo(s, Repeated(job, v), 6, ValidationClaimed(Staged(s), 0, job, 0));
  }

  lemma {:induction false} LeaseExpires(s: State, job: nat, v: Verdict)
    requires Fresh(s) && !s.site.uploaded
    ensures Exec(s, Repeated(job, v)[..7]) == Late(ValidationClaimed(Staged(s), 0, job, 0))
  {
    FirstClaims(s, job, v);
    ExecTo(s, Repeated(job, v), 7, Late(ValidationClaimed(Staged(s), 0, job, 0)));
  }

  lemma {:induction false} SecondClaims(s: State, job: nat, v: Verdict)
    requires Fresh(s) && !s.site.uploaded
    ensures Exec(s, Repeated(job, v)[..8]) == BothAtWork(s, job)
  {
    LeaseExpires(s, job, v);
    ExecTo(s, Repeated(job, v), 8, BothAtWork(s, job));
  }

  /** What both runs at work amounts to. */
  lemma {:induction false} FirstIsOvertaken(s: State, job: nat)
    requires Fresh(s)
    ensures var both := BothAtWork(s, job);
      && Overtaken(both, 0) && both.work.runs[0].outcome.Working? && both.work.runs[0].revision == 0
      && Owns(both.core.rows, both.work.runs[0])
      && both.history.claimant == map[0 := 1] && both.history.verdicts == [] && 0 in both.core.rows
      && both.core.rows[0].digest.Some?
  {
  }

  /** The run: the verdict is the overtaken run's, although the latest claim is another's. */
  lemma {:induction false} ARepeatedJobPassesItsOwnFence(s: State, job: nat, v: Verdict)
    requires Fresh(s) && !s.site.uploaded && Consistent(v)
    ensures Overtaken(Exec(s, Repeated(job, v)[..8]), 0)
    ensures var t := Exec(s, Repeated(job, v));
      && t.history.verdicts == [VerdictEvent(0, 0, v)] && t.history.claimant == map[0 := 1]
      && 0 in t.core.rows && Judged(t.core.rows[0]) && Records(t.core.rows[0], v)
  {
    SecondClaims(s, job, v);
    FirstDecides(s, job, v);
    FirstIsOvertaken(s, job);
  }

  lemma {:induction false} FirstDecides(s: State, job: nat, v: Verdict)
    requires Fresh(s) && !s.site.uploaded && Consistent(v)
    ensures Exec(s, Repeated(job, v)) == VerdictReached(BothAtWork(s, job), 0, v)
  {
    SecondClaims(s, job, v);
    FirstIsOvertaken(s, job);
    VerdictLast(s, Repeated(job, v), BothAtWork(s, job), 0, v);
  }

  /** A run of actions whose last is a verdict. */
  lemma {:induction false} VerdictLast(s: State, actions: seq<Action>, t: State, run: nat, v: Verdict)
    requires actions != [] && actions[|actions| - 1] == ReachVerdict(run, v) && Exec(s, actions[..|actions| - 1]) == t
    requires run in t.work.runs && t.work.runs[run].outcome.Working? && Consistent(v)
    ensures Exec(s, actions) == VerdictReached(t, run, v)
  {
    assert Step(t, ReachVerdict(run, v)) == VerdictReached(t, run, v);
    ExecTo(s, actions, |actions|, VerdictReached(t, run, v));
    assert actions[..|actions|] == actions;
  }
}
