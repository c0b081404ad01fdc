/**
 That the assumptions of the cutover's guarantee are exactly the ones it needs: from any sound
 state, a step that breaks them has an orderly continuation in which a job is both executed and
 recreated.
 */
module CutoverExact {
  import opened Cutover

  // ----- Orderly reachability ------------------------------------------------------------------------

  /** Some orderly run goes from one state to another. */
  ghost predicate Leads(s: State, t: State) {
    exists actions :: OrderlyRun(s, actions) && Exec(s, actions) == t
  }

  lemma {:induction false} OrderlyAfter(s: State, first: seq<Action>, rest: seq<Action>)
    requires OrderlyRun(s, first) && OrderlyRun(Exec(s, first), rest)
    ensures OrderlyRun(s, first + rest)
    decreases |first|
  {
    if first == [] {
      assert first + rest == rest;
    } else {
      assert (first + rest)[0] == first[0] && (first + rest)[1..] == first[1..] + rest;
      OrderlyAfter(Step(s, first[0]), first[1..], rest);
    }
  }

  lemma {:induction false} LeadsHere(s: State)
    ensures Leads(s, s)
  {
    assert OrderlyRun(s, []) && Exec(s, []) == s;
  }

  lemma {:induction false} LeadsOn(s: State, t: State, u: State)
    requires Leads(s, t) && Leads(t, u)
    ensures Leads(s, u)
  {
    var first :| OrderlyRun(s, first) && Exec(s, first) == t;
    var rest :| OrderlyRun(t, rest) && Exec(t, rest) == u;
    OrderlyAfter(s, first, rest);
    ExecAfter(s, first, t, rest, u);
  }

  lemma {:induction false} LeadsStep(s: State, t: State, a: Action)
    requires Leads(s, t) && Orderly(t, a)
    ensures Leads(s, Step(t, a))
  {
    ExecOne(t, a);
    assert OrderlyRun(t, [a]) by { assert [a][1..] == []; }
    assert Leads(t, Step(t, a));
    LeadsOn(s, t, Step(t, a));
  }

  /** A job both executed and recreated. */
  predicate Both(s: State, j: nat) { j in s.journal.recreated && j in s.world.executed }

  ghost predicate Doomed(s: State) { exists t, j :: Leads(s, t) && Both(t, j) }

  lemma {:induction false} DoomedAfter(s: State, t: State)
    requires Leads(s, t) && Doomed(t)
    ensures Doomed(s)
  {
    var u, j :| Leads(t, u) && Both(u, j);
    LeadsOn(s, t, u);
  }

  // ----- Emptying the installation --------------------------------------------------------------------

  function Unfinished(w: World): set<nat> {
    set j | j in w.jobs && (w.jobs[j].status == Running || w.jobs[j].status == Waiting)
  }

  /** One job is where it was. */
  predicate SameFor(w: World, v: World, j: nat) {
    RowOf(v, j) == RowOf(w, j) && TaskOf(v, j) == TaskOf(w, j) && (j in v.tasks <==> j in w.tasks)
    && (j in v.executed <==> j in w.executed)
  }

  /** One more job finishes, or its row goes before a worker takes it. */
  lemma {:induction false} FinishOne(s: State, i: nat, j: nat) returns (v: World)
    requires WorldSound(s.world) && i in Unfinished(s.world) && j !in s.world.jobs
    ensures Leads(s, s.(world := v)) && WorldSound(v) && SameFor(s.world, v, j)
    ensures Unfinished(v) == Unfinished(s.world) - {i}
  {
    var w := s.world;
    LeadsHere(s);
    assert JobSound(w, i);
    if w.jobs[i].status == Running {
      v := EnvStep(w, Finish(i, false));
      EnvKeepsWorld(w, Finish(i, false));
      LeadsStep(s, s, Finish(i, false));
    } else if TaskOf(w, i) == Held {
      var u := EnvStep(w, Start(i));
      v := EnvStep(u, Finish(i, false));
      EnvKeepsWorld(w, Start(i));
      EnvKeepsWorld(u, Finish(i, false));
      LeadsStep(s, s, Start(i));
      LeadsStep(s, s.(world := u), Finish(i, false));
    } else {
      var u := EnvStep(w, Enqueue(i));
      v := EnvStep(u, Delete(i));
      EnvKeepsWorld(w, Enqueue(i));
      EnvKeepsWorld(u, Delete(i));
      LeadsStep(s, s, Enqueue(i));
      LeadsStep(s, s.(world := u), Delete(i));
    }
  }

  lemma {:induction false} FinishAll(s: State, j: nat) returns (v: World)
    requires WorldSound(s.world) && j !in s.world.jobs
    ensures Leads(s, s.(world := v)) && WorldSound(v) && SameFor(s.world, v, j) && !SomeUnfinished(v)
    decreases |Unfinished(s.world)|
  {
    if Unfinished(s.world) == {} {
      LeadsHere(s);
      NothingUnfinished(s.world);
      return s.world;
    }
    var i :| i in Unfinished(s.world);
    var u := FinishOne(s, i, j);
    v := FinishAll(s.(world := u), j);
    LeadsOn(s, s.(world := u), s.(world := v));
  }

  lemma {:induction false} NothingUnfinished(w: World)
    requires Unfinished(w) == {}
    ensures !SomeUnfinished(w)
  {
    forall j | j in w.jobs ensures w.jobs[j].status != Running && w.jobs[j].status != Waiting {
      assert j !in Unfinished(w);
    }
  }

  // ----- Completing the cutover ---------------------------------------------------------------------------

  /** What the closures make of an entry whose row is gone. */
  function WithoutRow(c: Cancellation): Cancellation {
    if c == Cancelled then Cancelled else if Marked(c) then Executed else Vanished
  }

  /** The first read of an entry, with nothing waiting or running: resolved, and perhaps still to be recorded. */
  lemma {:induction false} LookOnce(s: State) returns (memory: seq<Entry>)
    requires AtEntry(s, Look) && !SomeUnfinished(s.world)
    ensures LookStep(s) in {s.(pass := Closing(memory, s.pass.i + 1, Look)),
                            s.(pass := Closing(memory, s.pass.i, Record))}
    ensures OthersKept(s.pass.memory, memory, s.pass.i)
    ensures var e := s.pass.memory[s.pass.i];
      e.job !in s.world.jobs ==> memory[s.pass.i].cancellation == WithoutRow(e.cancellation)
  {
    memory := LookStep(s).pass.memory;
  }

  ghost predicate OthersKept(before: seq<Entry>, after: seq<Entry>, i: nat)
    requires i < |before|
  {
    && |after| == |before| && after[i].job == before[i].job
    && forall k :: 0 <= k < |before| && k != i ==> after[k] == before[k]
  }

  /** The pass on entry i, with nothing waiting or running. */
  lemma {:induction false} PassOne(s: State) returns (t: State)
    requires AtEntry(s, Look) && !SomeUnfinished(s.world)
    ensures Leads(s, t) && t.world == s.world && t.journal.(schedules := []) == s.journal.(schedules := [])
    ensures t.pass.Closing? && t.pass.phase == Look && t.pass.i == s.pass.i + 1
    ensures OthersKept(s.pass.memory, t.pass.memory, s.pass.i)
    ensures var e := s.pass.memory[s.pass.i];
      e.job !in s.world.jobs ==> t.pass.memory[s.pass.i].cancellation == WithoutRow(e.cancellation)
  {
    var memory := LookOnce(s);
    LeadsHere(s);
    LeadsStep(s, s, LookAt);
    t := s.(pass := Closing(memory, s.pass.i + 1, Look));
    if Step(s, LookAt) != t {
      var recording := s.(pass := Closing(memory, s.pass.i, Record));
      LeadsStep(s, recording, RecordOutcome);
      t := t.(journal := s.journal.(schedules := memory));
    }
  }

  /** The closures run to their end. */
  lemma {:induction false} PassAll(s: State, k: nat) returns (t: State)
    requires s.pass.Closing? && s.pass.phase == Look && s.pass.i <= |s.pass.memory| && !SomeUnfinished(s.world)
    requires k < |s.pass.memory| && s.pass.memory[k].job !in s.world.jobs
    ensures Leads(s, t) && t.world == s.world && t.journal.(schedules := []) == s.journal.(schedules := [])
    ensures t.pass.Closing? && t.pass.phase == Look && t.pass.i == |t.pass.memory| == |s.pass.memory|
    ensures t.pass.memory[k].job == s.pass.memory[k].job
    ensures t.pass.memory[k].cancellation
         == if s.pass.i <= k then WithoutRow(s.pass.memory[k].cancellation) else s.pass.memory[k].cancellation
    decreases |s.pass.memory| - s.pass.i
  {
    if s.pass.i == |s.pass.memory| {
      LeadsHere(s);
      return s;
    }
    var u := PassOne(s);
    t := PassAll(u, k);
    LeadsOn(s, u, t);
  }

  /** A cutover entered with nothing waiting or running completes. */
  lemma {:induction false} CutOver(s: State, k: nat) returns (t: State)
    requires s.pass.Idle? && !s.journal.done && !SomeUnfinished(s.world)
    requires k < |s.journal.schedules| && s.journal.schedules[k].job !in s.world.jobs
    ensures Leads(s, t) && t.world == s.world && t.pass.Idle? && t.journal.done
    ensures t.journal.recreated == s.journal.recreated
    ensures k < |t.journal.schedules| && t.journal.schedules[k].job == s.journal.schedules[k].job
    ensures t.journal.schedules[k].cancellation == WithoutRow(s.journal.schedules[k].cancellation)
  {
    var schedules := s.journal.schedules;
    var entered := s.(pass := Capturing({}, []));
    var closing := s.(pass := Closing(schedules, 0, Look));
    LeadsHere(s);
    EnterNothing(s);
    LeadsStep(s, s, Enter);
    assert schedules + Captured([]) == schedules;
    LeadsStep(s, entered, CaptureCommit);
    var closed := PassAll(closing, k);
    LeadsOn(s, closing, closed);
    t := Finish3(s, closed);
  }

  lemma {:induction false} EnterNothing(s: State)
    requires s.pass.Idle? && !s.journal.done && !SomeUnfinished(s.world)
    ensures Step(s, Enter) == s.(pass := Capturing({}, []))
  {
    assert !SomeRunning(s.world);
    assert WaitingJobs(s.world) == {};
    assert WaitingJobs(s.world) - JobsIn(s.journal.schedules) == {};
  }

  lemma {:induction false} Finish3(s: State, u: State) returns (t: State)
    requires Leads(s, u) && u.pass.Closing? && u.pass.phase == Look && u.pass.i == |u.pass.memory|
             && !SomeUnfinished(u.world)
    ensures Leads(s, t) && t == State(u.world, u.journal.(schedules := u.pass.memory, done := true), Idle)
  {
    LeadsStep(s, u, CloseEnd);
    var checking := Step(u, CloseEnd);
    LeadsStep(s, checking, CheckUnfinished);
    var completing := Step(checking, CheckUnfinished);
    LeadsStep(s, completing, Complete);
    t := Step(completing, Complete);
  }

  // ----- Replaying one schedule ----------------------------------------------------------------------------

  /** A pass may skip its way to any schedule. */
  lemma {:induction false} SkipTo(s: State, k: nat)
    requires s.pass.Idle? && s.journal.done && k <= |s.journal.schedules|
    ensures Leads(s, s.(pass := Replaying(k, false)))
  {
    if k == 0 {
      LeadsHere(s);
      LeadsStep(s, s, Begin);
    } else {
      SkipTo(s, k - 1);
      LeadsStep(s, s.(pass := Replaying(k - 1, false)), Consider(true));
    }
  }

  lemma {:induction false} ReplayOne(s: State, k: nat)
    requires s.pass.Idle? && s.journal.done && k < |s.journal.schedules|
    requires !Taken(s, s.journal.schedules[k]) && TaskOf(s.world, s.journal.schedules[k].job) != Held
    requires s.journal.schedules[k].job in s.world.executed
    ensures Doomed(s)
  {
    SkipTo(s, k);
    var before := s.(pass := Replaying(k, false));
    LeadsStep(s, before, Consider(false));
    RecreateExecuted(s.(pass := Replaying(k, true)));
    LeadsStep(s, s.(pass := Replaying(k, true)), Recreate);
  }

  lemma {:induction false} RecreateExecuted(s: State)
    requires s.pass.Replaying? && s.pass.ready && s.pass.next < |s.journal.schedules|
    requires s.journal.schedules[s.pass.next].job in s.world.executed
    ensures Both(Step(s, Recreate), s.journal.schedules[s.pass.next].job)
  {
  }

  // ----- A disorderly step dooms the run -------------------------------------------------------------------

  /** A job without a row, which a worker ran or may yet run, and whose stored entry does not say so. */
  ghost predicate Astray(s: State, j: nat, k: nat) {
    && WorldSound(s.world) && s.pass.Idle? && j !in s.world.jobs && j in s.world.tasks && j !in s.journal.recreated
    && (j in s.world.executed || TaskOf(s.world, j) == Held)
    && k < |s.journal.schedules| && s.journal.schedules[k].job == j
    && !Marked(s.journal.schedules[k].cancellation)
    && (s.journal.schedules[k].cancellation == Cancelled ==> j in s.world.executed)
    && (s.journal.done ==> s.journal.schedules[k].cancellation in {Cancelled, Vanished})
  }

  /** Once the cutover is complete, a job astray can be executed, if it was not, and recreated. */
  lemma {:induction false} AstrayDoneDooms(s: State, j: nat, k: nat)
    requires Astray(s, j, k) && s.journal.done
    ensures Doomed(s)
  {
    assert JobSound(s.world, j);
    if j in s.world.executed {
      ReplayOne(s, k);
    } else {
      LeadsHere(s);
      LeadsStep(s, s, Start(j));
      ReplayOne(Step(s, Start(j)), k);
      DoomedAfter(s, Step(s, Start(j)));
    }
  }

  lemma {:induction false} AstrayDooms(s: State, j: nat, k: nat)
    requires Astray(s, j, k)
    ensures Doomed(s)
  {
    if s.journal.done {
      AstrayDoneDooms(s, j, k);
    } else {
      var v := FinishAll(s, j);
      var t := CutOver(s.(world := v), k);
      LeadsOn(s, s.(world := v), t);
      AstrayDoneDooms(t, j, k);
      DoomedAfter(s, t);
    }
  }

  /** A crash leaves the stored journal to decide. */
  lemma {:induction false} CrashLeads(s: State, t: State)
    requires Leads(s, t)
    ensures Leads(s, t.(pass := Idle))
  {
    LeadsStep(s, t, Crash);
  }

  lemma {:induction false} StoredEntryDooms(s: State, j: nat, k: nat)
    requires Sound(s) && Perilous(s.world, Delete(j)) && k < |s.journal.schedules|
    requires !LetsGo(s, s.journal.schedules[k], j)
    ensures Doomed(Step(s, Delete(j)))
  {
    var t := Step(s, Delete(j));
    assert JobSound(s.world, j) && EntrySound(s.world, s.journal.schedules[k]);
    EnvKeepsWorld(s.world, Delete(j));
    NotRecreated(s, j);
    LeadsHere(t);
    CrashLeads(t, t);
    assert s.journal.done ==> Resolved(s.journal.schedules[k].cancellation);
    AstrayDooms(t.(pass := Idle), j, k);
    DoomedAfter(t, t.(pass := Idle));
  }

  /** A job a worker ran or holds was never recreated. */
  lemma {:induction false} NotRecreated(s: State, j: nat)
    requires Sound(s) && (j in s.world.executed || TaskOf(s.world, j) == Held)
    ensures j !in s.journal.recreated
  {
    forall k | 0 <= k < |s.journal.recreated| ensures s.journal.recreated[k] != j {
      assert NeverRuns(s.world, s.journal.recreated[k]);
    }
  }

  lemma {:induction false} FoundJobDooms(s: State, t: State, j: nat)
    requires Sound(s) && s.pass.Capturing? && Perilous(s.world, Delete(j))
    requires t.world == EnvStep(s.world, Delete(j)) && t.journal == s.journal
    requires t.pass.Capturing? && j in t.pass.found
    ensures Doomed(t)
  {
    var n := |t.journal.schedules|;
    var i :| 0 <= i < |t.pass.found| && t.pass.found[i] == j;
    assert JobSound(s.world, j);
    EnvKeepsWorld(s.world, Delete(j));
    NotRecreated(s, j);
    LeadsHere(t);
    LeadsStep(t, t, CaptureCommit);
    var committed := Step(t, CaptureCommit);
    CrashLeads(t, committed);
    var u := committed.(pass := Idle);
    assert u.journal.schedules[n + i] == Captured(t.pass.found)[i] == Entry(j, Unset);
    AstrayDooms(u, j, n + i);
    DoomedAfter(t, u);
  }

  lemma {:induction false} CaptureDooms(s: State, j: nat)
    requires Sound(s) && Perilous(s.world, Delete(j)) && BeingCaptured(s.pass, j)
    ensures Doomed(Step(s, Delete(j)))
  {
    var t := Step(s, Delete(j));
    if j in s.pass.found {
      FoundJobDooms(s, t, j);
    } else {
      assert JobSound(s.world, j);
      LeadsHere(t);
      LeadsStep(t, t, CaptureOne(j));
      var u := Step(t, CaptureOne(j));
      FoundJobDooms(s, u, j);
      DoomedAfter(t, u);
    }
  }

  /** Replaying a schedule while a worker holds its old task. */
  lemma {:induction false} HeldReplayDooms(s: State)
    requires Sound(s) && BeforeReplay(s) && TaskOf(s.world, s.journal.schedules[s.pass.next].job) == Held
    ensures Doomed(Step(s, Consider(false)))
  {
    var j := s.journal.schedules[s.pass.next].job;
    var t := Step(s, Consider(false));
    LeadsHere(t);
    LeadsStep(t, t, Recreate);
    var u := Step(t, Recreate);
    LeadsStep(t, u, Start(j));
    assert Both(Step(u, Start(j)), j);
  }

  lemma {:induction false} DisorderDooms(s: State, a: Action)
    requires Sound(s) && !Orderly(s, a)
    ensures Doomed(Step(s, a))
  {
    if a.Delete? && a.job in s.world.jobs && !MayDelete(s, a.job) {
      if BeingCaptured(s.pass, a.job) {
        CaptureDooms(s, a.job);
      } else {
        var k :| 0 <= k < |s.journal.schedules| && !LetsGo(s, s.journal.schedules[k], a.job);
        StoredEntryDooms(s, a.job, k);
      }
    } else {
      HeldReplayDooms(s);
    }
  }

  /** Over every orderly continuation of a sound state, no job is both executed and recreated. */
  lemma {:induction false} SoundIsNotDoomed(s: State)
    requires Sound(s)
    ensures !Doomed(s)
  {
    forall t, j | Leads(s, t) ensures !Both(t, j) {
      var actions :| OrderlyRun(s, actions) && Exec(s, actions) == t;
      RunSound(s, actions);
      if j in t.journal.recreated {
        var k :| 0 <= k < |t.journal.recreated| && t.journal.recreated[k] == j;
        assert NeverRuns(t.world, t.journal.recreated[k]);
      }
    }
  }

  /**
   The assumptions are exact. From any sound state a step is orderly if and only if no orderly
   continuation of it both executes and recreates a job.
   */
  lemma {:induction false} OrderlyIsExact(s: State, a: Action)
    requires Sound(s)
    ensures Orderly(s, a) <==> !Doomed(Step(s, a))
  {
    if Orderly(s, a) {
      StepSound(s, a);
      SoundIsNotDoomed(Step(s, a));
    } else {
      DisorderDooms(s, a);
    }
  }

  /**
   A worker that holds a captured task when the pass begins is enough: there is a run of the pass
   that recreates the job, after which the worker runs it.
   */
  lemma {:induction false} HeldAtBeginCanRunTwice(s: State, k: nat) returns (t: State, actions: seq<Action>)
    requires Sound(s) && s.pass.Idle? && s.journal.done && k < |s.journal.schedules|
    requires TaskOf(s.world, s.journal.schedules[k].job) == Held
    ensures Leads(s, t) && t.pass.Replaying? && Both(Exec(t, actions), s.journal.schedules[k].job)
  {
    var e := s.journal.schedules[k];
    t := s.(pass := Replaying(k, false));
    SkipTo(s, k);
    NotRecreated(s, e.job);
    assert EntrySound(s.world, e) && JobSound(s.world, e.job) && Resolved(e.cancellation);
    actions := [Consider(false), Recreate, Start(e.job)];
    ExecThree(t, Consider(false), Recreate, Start(e.job));
  }
}
