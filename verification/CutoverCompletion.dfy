/**
 What a completed cutover means, over all runs, orderly or not; and that an undisturbed cutover
 completes, cancelling every waiting job and nothing else.
 */
module CutoverCompletion {
  import Prelude
  import opened Cutover

  // ----- Completion is only ever recorded of a finished installation ------------------------------------

  /** Every built-in job has ended, and every journal entry is resolved. */
  ghost predicate Settled(s: State) {
    && (forall j :: j in s.world.jobs ==> s.world.jobs[j].status in {Failed, Ended})
    && (forall k :: 0 <= k < |s.journal.schedules| ==>
          s.journal.schedules[k].cancellation in {Cancelled, Executed, LeftRunning, Vanished})
  }

  ghost predicate AllResolved(entries: seq<Entry>, n: nat) {
    n <= |entries| && forall k :: 0 <= k < n ==> Resolved(entries[k].cancellation)
  }

  /** How far a pass has resolved its entries. */
  ghost predicate Resolves(s: State) {
    match s.pass
    case Closing(memory, i, phase) =>
      AllResolved(memory, i) && (phase == Record ==> i < |memory| && Resolved(memory[i].cancellation))
    case Checking => AllResolved(s.journal.schedules, |s.journal.schedules|)
    case Completing => AllResolved(s.journal.schedules, |s.journal.schedules|)
    case _ => true
  }

  lemma {:induction false} StepResolves(s: State, a: Action)
    requires Resolves(s)
    ensures Resolves(Step(s, a))
  {
    if a.LookAt? && AtEntry(s, Look) { assert Step(s, a) == LookStep(s); }
  }

  lemma {:induction false} RunResolves(s: State, actions: seq<Action>)
    requires Resolves(s)
    ensures Resolves(Exec(s, actions))
    decreases |actions|
  {
    if actions != [] {
      StepResolves(s, actions[0]);
      RunResolves(Step(s, actions[0]), actions[1..]);
    }
  }

  lemma {:induction false} EntranceIsSettled(s: State, a: Action)
    requires Resolves(s) && !s.pass.Completing? && Step(s, a).pass.Completing?
    ensures Settled(Step(s, a))
  {
    assert a == CheckUnfinished && s.pass.Checking?;
    assert Step(s, a).world == s.world && Step(s, a).journal == s.journal;
    forall j | j in s.world.jobs ensures s.world.jobs[j].status in {Failed, Ended} {
    }
  }

  lemma {:induction false} DoneComesFromCompleting(s: State, a: Action)
    requires !s.journal.done && Step(s, a).journal.done
    ensures s.pass.Completing?
  {
  }

  /**
   In every run, whatever is deleted and whoever works meanwhile: a step takes the pass into
   completing only at a moment when every built-in job has ended and every entry is resolved, and
   only a completing pass records the cutover as done.
   */
  lemma {:induction false} CompletingMeansSettled(s: State, actions: seq<Action>, a: Action)
    requires Untouched(s)
    ensures var t, u := Exec(s, actions), Step(Exec(s, actions), a);
      && (!t.pass.Completing? && u.pass.Completing? ==> Settled(u))
      && (!t.journal.done && u.journal.done ==> t.pass.Completing?)
  {
    RunResolves(s, actions);
    var t := Exec(s, actions);
    if !t.pass.Completing? && Step(t, a).pass.Completing? { EntranceIsSettled(t, a); }
    if !t.journal.done && Step(t, a).journal.done { DoneComesFromCompleting(t, a); }
  }

  ghost predicate SettledAt(s: State, actions: seq<Action>, k: nat) {
    0 < k <= |actions| && Exec(s, actions[..k]).pass.Completing? && Settled(Exec(s, actions[..k]))
  }

  lemma {:induction false} DoneWasSettledFrom(s: State, actions: seq<Action>)
    requires Resolves(s) && !s.journal.done && !s.pass.Completing?
    requires Exec(s, actions).journal.done || Exec(s, actions).pass.Completing?
    ensures exists k: nat :: SettledAt(s, actions, k)
    decreases |actions|
  {
    var a, rest := actions[0], actions[1..];
    var t := Step(s, a);
    StepResolves(s, a);
    if t.pass.Completing? {
      EntranceIsSettled(s, a);
      assert actions[..1] == [a] && [a][1..] == [];
      assert Exec(s, actions[..1]) == t by { ExecOne(s, a); }
      assert SettledAt(s, actions, 1);
    } else {
      if t.journal.done { DoneComesFromCompleting(s, a); }
      DoneWasSettledFrom(t, rest);
      var k: nat :| SettledAt(t, rest, k);
      assert actions[..k + 1][0] == a && actions[..k + 1][1..] == rest[..k];
      assert SettledAt(s, actions, k + 1);
    }
  }

  /** A cutover recorded as done passed through such a moment. */
  lemma {:induction false} DoneWasSettled(s: State, actions: seq<Action>)
    requires Untouched(s) && Exec(s, actions).journal.done
    ensures exists k: nat :: SettledAt(s, actions, k)
  {
    DoneWasSettledFrom(s, actions);
  }

  // ----- An undisturbed cutover ---------------------------------------------------------------------------

  predicate OfCutover(a: Action) {
    || a.Enter? || a.CaptureOne? || a.CaptureCommit? || a.LookAt? || a.DropTask? || a.FailRow? || a.RecordOutcome?
    || a.RefreshRow? || a.CloseEnd? || a.CheckUnfinished? || a.Complete?
  }

  /** The cutover's own steps lead from one state to another. */
  ghost predicate Pursues(s: State, t: State) {
    exists actions :: OwnSteps(actions) && Exec(s, actions) == t
  }

  ghost predicate OwnSteps(actions: seq<Action>) { forall k :: 0 <= k < |actions| ==> OfCutover(actions[k]) }

  lemma {:induction false} PursuesHere(s: State)
    ensures Pursues(s, s)
  {
    assert OwnSteps([]) && Exec(s, []) == s;
  }

  lemma {:induction false} PursuesOn(s: State, t: State, u: State)
    requires Pursues(s, t) && Pursues(t, u)
    ensures Pursues(s, u)
  {
    var first :| OwnSteps(first) && Exec(s, first) == t;
    var rest :| OwnSteps(rest) && Exec(t, rest) == u;
    ExecAfter(s, first, t, rest, u);
    assert OwnSteps(first + rest);
  }

  lemma {:induction false} PursuesStep(s: State, t: State, a: Action)
    requires Pursues(s, t) && OfCutover(a)
    ensures Pursues(s, Step(t, a))
  {
    ExecOne(t, a);
    assert OwnSteps([a]);
    assert Pursues(t, Step(t, a));
    PursuesOn(s, t, Step(t, a));
  }

  predicate Waits(w: World, j: nat) { j in w.jobs && w.jobs[j].status == Waiting }

  /** The world once some jobs were dealt with: the waiting ones among them failed and taken off the queue. */
  ghost predicate Cleared(before: World, after: World, jobs: set<nat>) {
    && after.jobs.Keys == before.jobs.Keys && after.tasks.Keys == before.tasks.Keys && after.executed == before.executed
    && (forall j :: j in before.jobs ==>
          after.jobs[j] == if j in jobs && Waits(before, j) then Job(Failed, false) else before.jobs[j])
    && (forall j :: j in before.tasks ==>
          after.tasks[j] == if j in jobs && Waits(before, j) && before.tasks[j] == Queued then Gone
                            else before.tasks[j])
  }

  /** Every waiting job can be cancelled: unstarted, and its task handed over, if not gone since. */
  ghost predicate Ready(w: World) {
    forall j :: Waits(w, j) ==> !w.jobs[j].started && j in w.tasks && w.tasks[j] != NotYet
  }

  /** An entry as a pass finds it. */
  ghost predicate Fresh(w: World, e: Entry) { Waits(w, e.job) ==> e.cancellation != Cancelled }

  /** What closing an entry leaves. */
  ghost predicate Closed(w: World, before: Entry, after: Entry) {
    && after.job == before.job && Resolved(after.cancellation)
    && (Waits(w, before.job) ==> after.cancellation == Cancelled)
  }

  lemma {:induction false} CancelOne(s: State, before: World, jobs: set<nat>) returns (t: State)
    requires AtEntry(s, Look) && Ready(before) && Cleared(before, s.world, jobs)
    requires var e := s.pass.memory[s.pass.i]; e.job !in jobs && Waits(before, e.job) && e.cancellation != Cancelled
    ensures Pursues(s, t) && Cleared(before, t.world, jobs + {s.pass.memory[s.pass.i].job})
    ensures var e := s.pass.memory[s.pass.i];
      && t.pass == Closing(s.pass.memory[s.pass.i := Entry(e.job, Cancelled)], s.pass.i + 1, Look)
      && t.journal.done == s.journal.done && t.journal.recreated == s.journal.recreated
  {
    var e := s.pass.memory[s.pass.i];
    PursuesHere(s);
    PursuesStep(s, s, LookAt);
    var looked := Step(s, LookAt);
    assert looked == LookStep(s);
    PursuesStep(s, looked, DropTask);
    var dropped := Step(looked, DropTask);
    PursuesStep(s, dropped, FailRow);
    var failed := Step(dropped, FailRow);
    PursuesStep(s, failed, RecordOutcome);
    t := Step(failed, RecordOutcome);
    CancelledOutcome(s, looked, dropped, failed, t);
    assert jobs + {e.job} == {e.job} + jobs;
  }

  lemma {:induction false} CancelledOutcome(s: State, looked: State, dropped: State, failed: State, t: State)
    requires AtEntry(s, Look)
    requires var e := s.pass.memory[s.pass.i];
      && Waits(s.world, e.job) && !s.world.jobs[e.job].started && e.cancellation != Cancelled
    requires looked == LookStep(s) && dropped == Step(looked, DropTask) && failed == Step(dropped, FailRow)
    requires t == Step(failed, RecordOutcome)
    ensures var e := s.pass.memory[s.pass.i];
      && t.pass == Closing(s.pass.memory[s.pass.i := Entry(e.job, Cancelled)], s.pass.i + 1, Look)
      && t.journal.done == s.journal.done && t.journal.recreated == s.journal.recreated
      && t.world.jobs == s.world.jobs[e.job := Job(Failed, false)] && t.world.executed == s.world.executed
      && t.world.tasks == if TaskOf(s.world, e.job) == Queued then s.world.tasks[e.job := Gone] else s.world.tasks
  {
    var e := s.pass.memory[s.pass.i];
    assert dropped.pass == looked.pass.(phase := Update);
    assert looked.pass == Closing(s.pass.memory[s.pass.i := Entry(e.job, Cancelling)], s.pass.i, Drop);
    assert failed.pass.memory == s.pass.memory[s.pass.i := Entry(e.job, Cancelled)];
  }

  lemma {:induction false} PassByOne(s: State) returns (t: State, c: Cancellation)
    requires AtEntry(s, Look) && !Waits(s.world, s.pass.memory[s.pass.i].job)
    ensures Pursues(s, t) && t.world == s.world && Resolved(c)
    ensures var e := s.pass.memory[s.pass.i];
      && t.pass == Closing(s.pass.memory[s.pass.i := Entry(e.job, c)], s.pass.i + 1, Look)
      && t.journal.done == s.journal.done && t.journal.recreated == s.journal.recreated
  {
    c := LooksPast(s);
    var e := s.pass.memory[s.pass.i];
    var memory := s.pass.memory[s.pass.i := Entry(e.job, c)];
    PursuesHere(s);
    PursuesStep(s, s, LookAt);
    t := s.(pass := Closing(memory, s.pass.i + 1, Look));
    if Step(s, LookAt) != t {
      PursuesStep(s, s.(pass := Closing(memory, s.pass.i, Record)), RecordOutcome);
      t := t.(journal := s.journal.(schedules := memory));
    }
  }

  lemma {:induction false} LooksPast(s: State) returns (c: Cancellation)
    requires AtEntry(s, Look) && !Waits(s.world, s.pass.memory[s.pass.i].job)
    ensures Resolved(c)
    ensures var memory := s.pass.memory[s.pass.i := Entry(s.pass.memory[s.pass.i].job, c)];
      Step(s, LookAt) in {s.(pass := Closing(memory, s.pass.i + 1, Look)),
                          s.(pass := Closing(memory, s.pass.i, Record))}
  {
    assert Step(s, LookAt) == LookStep(s);
    c := LookStep(s).pass.memory[s.pass.i].cancellation;
    assert LookStep(s).pass.memory == s.pass.memory[s.pass.i := Entry(s.pass.memory[s.pass.i].job, c)];
  }

  /** The jobs of the entries already closed. */
  function JobsBelow(entries: seq<Entry>, n: nat): set<nat>
    requires n <= |entries|
  {
    set k | 0 <= k < n :: entries[k].job
  }

  ghost predicate AllFresh(w: World, entries: seq<Entry>) {
    forall k :: 0 <= k < |entries| ==> Fresh(w, entries[k])
  }

  /** A pass part of the way through its entries. */
  ghost predicate Underway(s: State, before: World, entries: seq<Entry>) {
    && s.pass.Closing? && s.pass.phase == Look && s.pass.i <= |entries| == |s.pass.memory|
    && Cleared(before, s.world, JobsBelow(entries, s.pass.i))
    && (forall k :: 0 <= k < s.pass.i ==> Closed(before, entries[k], s.pass.memory[k]))
    && (forall k :: s.pass.i <= k < |entries| ==> s.pass.memory[k] == entries[k])
  }

  lemma {:induction false} CloseOne(s: State, before: World, entries: seq<Entry>) returns (t: State)
    requires Ready(before) && DistinctJobs(entries) && AllFresh(before, entries)
    requires Underway(s, before, entries) && s.pass.i < |entries|
    ensures Pursues(s, t) && Underway(t, before, entries) && t.pass.i == s.pass.i + 1
    ensures t.journal.done == s.journal.done && t.journal.recreated == s.journal.recreated
  {
    var i := s.pass.i;
    var e := entries[i];
    assert Fresh(before, e);
    assert e.job !in JobsBelow(entries, i);
    assert JobsBelow(entries, i + 1) == JobsBelow(entries, i) + {e.job};
    if Waits(before, e.job) {
      t := CancelOne(s, before, JobsBelow(entries, i));
    } else {
      var c;
      t, c := PassByOne(s);
      StillCleared(before, s.world, JobsBelow(entries, i), e.job);
    }
    assert forall k :: 0 <= k < |entries| && k != i ==> t.pass.memory[k] == s.pass.memory[k];
  }

  lemma {:induction false} StillCleared(before: World, after: World, jobs: set<nat>, j: nat)
    requires Cleared(before, after, jobs) && !Waits(before, j)
    ensures Cleared(before, after, jobs + {j})
  {
  }

  lemma {:induction false} CloseAll(s: State, before: World, entries: seq<Entry>) returns (t: State)
    requires Ready(before) && DistinctJobs(entries) && AllFresh(before, entries) && Underway(s, before, entries)
    ensures Pursues(s, t) && Underway(t, before, entries) && t.pass.i == |entries|
    ensures t.journal.done == s.journal.done && t.journal.recreated == s.journal.recreated
    decreases |entries| - s.pass.i
  {
    if s.pass.i == |entries| {
      PursuesHere(s);
      return s;
    }
    var u := CloseOne(s, before, entries);
    t := CloseAll(u, before, entries);
    PursuesOn(s, u, t);
  }

  // ----- The capture --------------------------------------------------------------------------------------

  /** Some listed jobs, each taken once. */
  lemma {:induction false} CaptureAll(s: State) returns (t: State)
    requires s.pass.Capturing? && Ready(s.world) && forall j :: j in s.pass.listed ==> Waits(s.world, j)
    requires forall j :: j in s.pass.found ==> j !in s.pass.listed
    requires forall i, k :: 0 <= i < k < |s.pass.found| ==> s.pass.found[i] != s.pass.found[k]
    ensures Pursues(s, t) && t.world == s.world && t.journal == s.journal && t.pass.Capturing?
    ensures t.pass.listed == {} && forall j :: j in t.pass.found <==> j in s.pass.found || j in s.pass.listed
    ensures forall i, k :: 0 <= i < k < |t.pass.found| ==> t.pass.found[i] != t.pass.found[k]
    decreases |s.pass.listed|
  {
    PursuesHere(s);
    if s.pass.listed == {} {
      return s;
    }
    var j :| j in s.pass.listed;
    var u := s.(pass := Capturing(s.pass.listed - {j}, s.pass.found + [j]));
    assert Waits(s.world, j);
    assert Step(s, CaptureOne(j)) == u;
    PursuesStep(s, s, CaptureOne(j));
    t := CaptureAll(u);
    PursuesOn(s, u, t);
  }

  /** An installation a cutover can complete on: nothing running, and every waiting job's task handed over. */
  ghost predicate CanComplete(s: State) {
    && s.pass.Idle? && !s.journal.done && Ready(s.world)
    && (forall j :: j in s.world.jobs ==> s.world.jobs[j].status != Running)
    && DistinctJobs(s.journal.schedules) && AllFresh(s.world, s.journal.schedules)
  }

  /** What such a cutover comes to. */
  ghost predicate CompletedFrom(s: State, t: State) {
    && t.pass.Idle? && t.journal.done && t.journal.recreated == s.journal.recreated
    && Cleared(s.world, t.world, s.world.jobs.Keys)
    && (forall j :: j in JobsIn(t.journal.schedules) <==> j in JobsIn(s.journal.schedules) || Waits(s.world, j))
    && (forall k :: 0 <= k < |t.journal.schedules| ==> Resolved(t.journal.schedules[k].cancellation))
    && (forall k :: 0 <= k < |t.journal.schedules| && Waits(s.world, t.journal.schedules[k].job) ==>
          t.journal.schedules[k].cancellation == Cancelled)
    && DistinctJobs(t.journal.schedules)
  }

  lemma {:induction false} EnterListsTheWaiting(s: State)
    requires CanComplete(s)
    ensures Step(s, Enter).pass.Capturing? && Step(s, Enter).pass.found == []
    ensures Step(s, Enter).world == s.world && Step(s, Enter).journal == s.journal
    ensures forall j :: j in Step(s, Enter).pass.listed <==> Waits(s.world, j) && j !in JobsIn(s.journal.schedules)
  {
    assert !SomeRunning(s.world);
  }

  lemma {:induction false} CapturedDistinct(schedules: seq<Entry>, found: seq<nat>)
    requires DistinctJobs(schedules) && forall i, k :: 0 <= i < k < |found| ==> found[i] != found[k]
    requires forall j :: j in found ==> j !in JobsIn(schedules)
    ensures DistinctJobs(schedules + Captured(found))
    ensures forall j :: j in JobsIn(schedules + Captured(found)) <==> j in JobsIn(schedules) || j in found
  {
    var all := schedules + Captured(found);
    assert forall k :: 0 <= k < |schedules| ==> schedules[k].job in JobsIn(schedules);
    forall j | j in JobsIn(schedules) || j in found ensures j in JobsIn(all) {
      if j in found {
        var k :| 0 <= k < |found| && found[k] == j;
        assert all[|schedules| + k].job == j;
      } else {
        var e :| e in schedules && e.job == j;
        var k :| 0 <= k < |schedules| && schedules[k] == e;
        assert all[k] == e;
      }
    }
    forall j | j in JobsIn(all) ensures j in JobsIn(schedules) || j in found {
      var e :| e in all && e.job == j;
      var k :| 0 <= k < |all| && all[k] == e;
      if k >= |schedules| {
        assert found[k - |schedules|] == j;
      }
    }
  }

  lemma {:induction false} Capture(s: State) returns (t: State)
    requires CanComplete(s)
    ensures Pursues(s, t) && t.pass == Closing(t.journal.schedules, 0, Look)
    ensures t.world == s.world && t.journal.done == s.journal.done && t.journal.recreated == s.journal.recreated
    ensures DistinctJobs(t.journal.schedules) && AllFresh(s.world, t.journal.schedules)
    ensures forall j :: j in JobsIn(t.journal.schedules) <==> j in JobsIn(s.journal.schedules) || Waits(s.world, j)
  {
    var captured := ListedAreCaptured(s);
    PursuesStep(s, captured, CaptureCommit);
    CapturedDistinct(s.journal.schedules, captured.pass.found);
    t := Step(captured, CaptureCommit);
    NewEntriesAreFresh(s.world, s.journal.schedules, captured.pass.found);
  }

  lemma {:induction false} ListedAreCaptured(s: State) returns (t: State)
    requires CanComplete(s)
    ensures Pursues(s, t) && t.world == s.world && t.journal == s.journal && t.pass.Capturing?
    ensures forall j :: j in t.pass.found <==> Waits(s.world, j) && j !in JobsIn(s.journal.schedules)
    ensures forall i, k :: 0 <= i < k < |t.pass.found| ==> t.pass.found[i] != t.pass.found[k]
  {
    EnterListsTheWaiting(s);
    PursuesHere(s);
    PursuesStep(s, s, Enter);
    t := CaptureAll(Step(s, Enter));
    PursuesOn(s, Step(s, Enter), t);
  }

  lemma {:induction false} NewEntriesAreFresh(w: World, schedules: seq<Entry>, found: seq<nat>)
    requires AllFresh(w, schedules)
    ensures AllFresh(w, schedules + Captured(found))
  {
  }

  lemma {:induction false} Conclude(s: State) returns (t: State)
    requires s.pass.Closing? && s.pass.phase == Look && s.pass.i == |s.pass.memory|
    requires forall j :: j in s.world.jobs ==> s.world.jobs[j].status in {Failed, Ended}
    ensures Pursues(s, t)
    ensures t == State(s.world, s.journal.(schedules := s.pass.memory, done := true), Idle)
  {
    PursuesHere(s);
    PursuesStep(s, s, CloseEnd);
    var checking := s.(journal := s.journal.(schedules := s.pass.memory), pass := Checking);
    assert !SomeUnfinished(s.world);
    PursuesStep(s, checking, CheckUnfinished);
    PursuesStep(s, checking.(pass := Completing), Complete);
    t := Step(checking.(pass := Completing), Complete);
  }

  lemma {:induction false} ClosedIsCompleted(s: State, entries: seq<Entry>, closed: State)
    requires CanComplete(s) && DistinctJobs(entries) && Underway(closed, s.world, entries) && closed.pass.i == |entries|
    requires forall j :: j in JobsIn(entries) <==> j in JobsIn(s.journal.schedules) || Waits(s.world, j)
    ensures DistinctJobs(closed.pass.memory) && Cleared(s.world, closed.world, s.world.jobs.Keys)
    ensures forall j :: j in JobsIn(closed.pass.memory) <==> j in JobsIn(entries)
    ensures forall j :: j in closed.world.jobs ==> closed.world.jobs[j].status in {Failed, Ended}
  {
    var memory := closed.pass.memory;
    assert forall k :: 0 <= k < |entries| ==> Closed(s.world, entries[k], memory[k]);
    forall j ensures j in JobsBelow(entries, |entries|) <==> j in JobsIn(entries) {
      if j in JobsIn(entries) {
        var e :| e in entries && e.job == j;
        var k :| 0 <= k < |entries| && entries[k] == e;
      }
    }
    forall j ensures j in JobsIn(memory) <==> j in JobsIn(entries) {
      SameJobSets(entries, memory, j);
    }
  }

  lemma {:induction false} SameJobSets(a: seq<Entry>, b: seq<Entry>, j: nat)
    requires |a| == |b| && forall k :: 0 <= k < |a| ==> a[k].job == b[k].job
    ensures j in JobsIn(a) <==> j in JobsIn(b)
  {
    if j in JobsIn(a) {
      var e :| e in a && e.job == j;
      var k :| 0 <= k < |a| && a[k] == e;
      assert b[k] in b;
    }
    if j in JobsIn(b) {
      var e :| e in b && e.job == j;
      var k :| 0 <= k < |b| && b[k] == e;
      assert a[k] in a;
    }
  }

  /**
   Left to itself, a cutover completes from any installation with nothing running and every waiting
   job's task handed over. Every waiting job is then failed, unstarted, off the queue and cancelled
   in the journal; no other row, task or execution is touched; and the journal names the jobs it
   named before and the waiting ones, each once and resolved.
   */
  lemma {:induction false} UndisturbedCutoverCompletes(s: State) returns (t: State)
    requires CanComplete(s)
    ensures Pursues(s, t) && CompletedFrom(s, t)
  {
    var captured := Capture(s);
    var entries := captured.journal.schedules;
    assert JobsBelow(entries, 0) == {};
    var closed := CloseAll(captured, s.world, entries);
    PursuesOn(s, captured, closed);
    ClosedIsCompleted(s, entries, closed);
    t := Conclude(closed);
    PursuesOn(s, closed, t);
    assert forall k :: 0 <= k < |entries| ==> Closed(s.world, entries[k], closed.pass.memory[k]);
  }

  /** A sound state at rest, with nothing running and every waiting job's task handed over, is such an installation. */
  lemma {:induction false} SoundCanComplete(s: State)
    requires Sound(s) && s.pass.Idle? && !s.journal.done
    requires forall j :: j in s.world.jobs ==> s.world.jobs[j].status != Running
    requires forall j :: j in s.world.tasks && Waits(s.world, j) ==> s.world.tasks[j] != NotYet
    ensures CanComplete(s)
  {
    forall j | Waits(s.world, j) ensures !s.world.jobs[j].started && j in s.world.tasks && s.world.tasks[j] != NotYet {
      assert JobSound(s.world, j);
    }
    forall k | 0 <= k < |s.journal.schedules| ensures Fresh(s.world, s.journal.schedules[k]) {
      assert EntrySound(s.world, s.journal.schedules[k]);
    }
  }

  // ----- Refusing, and what a disturbed closing records -------------------------------------------------

  /**
   A cutover enters exactly when nothing runs. Otherwise it refuses, and first marks every captured job
   that runs: from then on the deletion that clears a stale run is safe.
   */
  lemma {:induction false} RefusalMarksTheRunning(s: State, j: nat)
    requires Sound(s) && s.pass.Idle? && !s.journal.done
    ensures Step(s, Enter).pass.Capturing? <==> forall i :: i in s.world.jobs ==> s.world.jobs[i].status != Running
    ensures j in s.world.jobs && s.world.jobs[j].status == Running ==> MayDelete(Step(s, Refuse), j)
    ensures var before, after := s.journal.schedules, Step(s, Refuse).journal.schedules;
      |after| == |before| && forall k :: 0 <= k < |before| ==>
        after[k] == if before[k].job in s.world.jobs && s.world.jobs[before[k].job].status == Running
                    then Entry(before[k].job, LeftRunning) else before[k]
    ensures Step(s, Refuse).world == s.world && Step(s, Refuse).pass == s.pass
  {
    if j in s.world.jobs && s.world.jobs[j].status == Running {
      assert SomeRunning(s.world);
      assert JobSound(s.world, j);
    }
  }

  /** What the first look at an entry makes of the row it finds. */
  lemma {:induction false} RowsDecide(s: State)
    requires AtEntry(s, Look)
    ensures var e, w := s.pass.memory[s.pass.i], s.world;
      var t := Step(s, LookAt);
      var c := t.pass.memory[s.pass.i].cancellation;
      && t.world == s.world
      && (e.cancellation == Cancelled ==> c == Cancelled)
      && (e.cancellation != Cancelled && e.job !in w.jobs ==>
            c == if e.cancellation in {Executed, LeftRunning} then Executed else Vanished)
      && (e.cancellation != Cancelled && Waits(w, e.job) ==>
            c == Cancelling && t.journal.schedules == t.pass.memory && t.pass.phase == Drop)
      && (e.cancellation == Cancelling && e.job in w.jobs && w.jobs[e.job].status != Waiting ==>
            (c == if w.jobs[e.job].started then Executed else Cancelled) && t.pass.phase == Record)
      && (e.cancellation !in {Cancelled, Cancelling} && e.job in w.jobs && w.jobs[e.job].status == Running ==>
            c == LeftRunning)
      && (e.cancellation !in {Cancelled, Cancelling} && e.job in w.jobs && w.jobs[e.job].status in {Failed, Ended} ==>
            c == Executed)
  {
    assert Step(s, LookAt) == LookStep(s);
  }

  /** The row of a job whose update no longer applies, because a worker took it or it is gone, decides its entry. */
  lemma {:induction false} LostRaceIsResolved(s: State) returns (t: State)
    requires AtEntry(s, Update)
    requires var e := s.pass.memory[s.pass.i];
      e.job in s.world.jobs ==> s.world.jobs[e.job].status != Waiting || s.world.jobs[e.job].started
    ensures Pursues(s, t) && t.world == s.world && t.journal == s.journal
    ensures var e := s.pass.memory[s.pass.i];
      t.pass == Closing(s.pass.memory[s.pass.i := Entry(e.job,
                  if e.job !in s.world.jobs then Vanished
                  else if s.world.jobs[e.job].status == Running then LeftRunning else Executed)], s.pass.i + 1, Look)
  {
    PursuesHere(s);
    PursuesStep(s, s, FailRow);
    UpdateMisses(s);
    var missed := s.(pass := s.pass.(phase := Refresh));
    PursuesStep(s, missed, RefreshRow);
    t := Step(missed, RefreshRow);
  }

  lemma {:induction false} UpdateMisses(s: State)
    requires AtEntry(s, Update)
    requires var e := s.pass.memory[s.pass.i];
      e.job in s.world.jobs ==> s.world.jobs[e.job].status != Waiting || s.world.jobs[e.job].started
    ensures Step(s, FailRow) == s.(pass := s.pass.(phase := Refresh))
  {
  }

  // ----- An undisturbed reference pass ---------------------------------------------------------------------

  /** Nothing stops an entry: no worker took its job, and the row its cancellation left did not change. */
  ghost predicate Replayable(w: World, e: Entry) {
    && e.cancellation !in {Executed, LeftRunning}
    && (e.cancellation == Cancelled && e.job in w.jobs ==> w.jobs[e.job] == Job(Failed, false))
  }

  predicate OfReplay(a: Action) { a.Begin? || a.Consider? || a.Recreate? || a.End? }

  ghost predicate Replays(s: State, t: State) {
    exists actions :: ReplaySteps(actions) && Exec(s, actions) == t
  }

  ghost predicate ReplaySteps(actions: seq<Action>) { forall k :: 0 <= k < |actions| ==> OfReplay(actions[k]) }

  lemma {:induction false} ReplaysStep(s: State, t: State, a: Action)
    requires Replays(s, t) && OfReplay(a)
    ensures Replays(s, Step(t, a))
  {
    var first :| ReplaySteps(first) && Exec(s, first) == t;
    ExecOne(t, a);
    ExecAfter(s, first, t, [a], Step(t, a));
    assert ReplaySteps(first + [a]);
  }

  /** Which jobs a pass has recreated once it stands at an entry. */
  ghost predicate RecreatedBelow(s: State, t: State, skips: set<nat>, n: nat) {
    && t == State(s.world, s.journal.(recreated := t.journal.recreated), t.pass)
    && forall j :: j in t.journal.recreated <==>
         j in s.journal.recreated
         || exists k :: 0 <= k < n && k < |s.journal.schedules| && Comes(s, skips, j, k)
  }

  ghost predicate Comes(s: State, skips: set<nat>, j: nat, k: nat)
    requires k < |s.journal.schedules|
  {
    s.journal.schedules[k].job == j && j !in skips && Replayable(s.world, s.journal.schedules[k])
  }

  lemma {:induction false} PassOne(s: State, t: State, skips: set<nat>) returns (u: State)
    requires Replays(s, t) && DistinctJobs(s.journal.schedules)
    requires t.pass.Replaying? && !t.pass.ready && t.pass.next < |s.journal.schedules|
    requires RecreatedBelow(s, t, skips, t.pass.next)
    ensures Replays(s, u) && u.pass == Replaying(t.pass.next + 1, false)
    ensures RecreatedBelow(s, u, skips, t.pass.next + 1)
  {
    var n := t.pass.next;
    var e := s.journal.schedules[n];
    ReplaysStep(s, t, Consider(e.job in skips));
    if e.job in skips || Taken(t, e) {
      u := t.(pass := Replaying(n + 1, false));
      assert Step(t, Consider(e.job in skips)) == u;
      assert e.job in skips || e.job in t.journal.recreated || !Replayable(s.world, e);
    } else {
      var ready := t.(pass := Replaying(n, true));
      assert Step(t, Consider(false)) == ready;
      ReplaysStep(s, ready, Recreate);
      u := Step(ready, Recreate);
      assert Comes(s, skips, e.job, n);
    }
    RecreatedNext(s, t, u, skips, n);
  }

  lemma {:induction false} RecreatedNext(s: State, t: State, u: State, skips: set<nat>, n: nat)
    requires n < |s.journal.schedules| && RecreatedBelow(s, t, skips, n)
    requires u == State(s.world, s.journal.(recreated := u.journal.recreated), u.pass)
    requires var e := s.journal.schedules[n];
      u.journal.recreated == if Comes(s, skips, e.job, n) && e.job !in t.journal.recreated
                             then t.journal.recreated + [e.job] else t.journal.recreated
    ensures RecreatedBelow(s, u, skips, n + 1)
  {
    var e := s.journal.schedules[n];
    forall j ensures j in u.journal.recreated <==>
      j in s.journal.recreated || exists k :: 0 <= k < n + 1 && k < |s.journal.schedules| && Comes(s, skips, j, k)
    {
      if j in u.journal.recreated && j !in t.journal.recreated {
        assert Comes(s, skips, j, n);
      }
      if k :| 0 <= k < n + 1 && k < |s.journal.schedules| && Comes(s, skips, j, k) {
        assert k == n ==> j == e.job;
      }
    }
  }

  lemma {:induction false} PassAll(s: State, t: State, skips: set<nat>) returns (u: State)
    requires Replays(s, t) && DistinctJobs(s.journal.schedules)
    requires t.pass.Replaying? && !t.pass.ready && t.pass.next <= |s.journal.schedules|
    requires RecreatedBelow(s, t, skips, t.pass.next)
    ensures Replays(s, u) && u.pass == Replaying(|s.journal.schedules|, false)
    ensures RecreatedBelow(s, u, skips, |s.journal.schedules|)
    decreases |s.journal.schedules| - t.pass.next
  {
    if t.pass.next == |s.journal.schedules| {
      return t;
    }
    u := PassOne(s, t, skips);
    u := PassAll(s, u, skips);
  }

  /**
   Left to itself, a reference pass over a completed cutover ends with exactly the replayable jobs
   recreated that it did not skip for its own reasons, besides those recreated before.
   */
  lemma {:induction false} UndisturbedPassRecreates(s: State, skips: set<nat>) returns (t: State)
    requires s.pass.Idle? && s.journal.done && DistinctJobs(s.journal.schedules)
    ensures Replays(s, t) && t.pass.Idle?
    ensures RecreatedBelow(s, t, skips, |s.journal.schedules|)
  {
    assert ReplaySteps([]) && Exec(s, []) == s;
    ReplaysStep(s, s, Begin);
    var begun := s.(pass := Replaying(0, false));
    assert Step(s, Begin) == begun;
    var ended := PassAll(s, begun, skips);
    ReplaysStep(s, ended, End);
    t := Step(ended, End);
  }

  /** An entry about to be recreated stays so until it is, or the pass is cut short. */
  lemma {:induction false} ReadyUntilRecreated(s: State, a: Action)
    requires s.pass.Replaying? && s.pass.ready && s.pass.next < |s.journal.schedules|
    ensures || Step(s, a).pass == s.pass
            || a.Crash?
            || (a.Recreate? && Step(s, a).journal.recreated
                == s.journal.recreated + [s.journal.schedules[s.pass.next].job])
  {
  }

  // ----- The installation -----------------------------------------------------------------------------------

  /** Where one job stands. */
  datatype Standing = Standing(row: Prelude.Option<Job>, task: Task, ran: bool)

  function StandingOf(w: World, j: nat): Standing {
    Standing(if j in w.jobs then Prelude.Some(w.jobs[j]) else Prelude.None, if j in w.tasks then w.tasks[j] else Gone,
             j in w.executed)
  }

  /** A step of the installation is about one job. */
  lemma {:induction false} StepsAreLocal(w: World, a: Action, j: nat)
    requires IsEnv(a) && a.job != j
    ensures StandingOf(EnvStep(w, a), j) == StandingOf(w, j)
  {
  }

  /**
   The life of a job: submitted, handed to the queue, dequeued, started, finished, deleted. No step
   skips one before it, and a worker that holds a task starts it whatever became of the row.
   */
  lemma {:induction false} AJobsLife(w: World, j: nat, failed: bool)
    ensures j !in w.tasks ==> StandingOf(EnvStep(w, Submit(j)), j).row == Prelude.Some(Job(Waiting, false))
                              && StandingOf(EnvStep(w, Submit(j)), j).task == NotYet
    ensures j in w.tasks ==> EnvStep(w, Submit(j)) == w
    ensures var before, after := StandingOf(w, j), StandingOf(EnvStep(w, Enqueue(j)), j);
      after == if before.row.Some? && before.task == NotYet then before.(task := Queued) else before
    ensures var before, after := StandingOf(w, j), StandingOf(EnvStep(w, Dequeue(j)), j);
      after == if before.task == Queued then before.(task := Held) else before
    ensures var before, after := StandingOf(w, j), StandingOf(EnvStep(w, Start(j)), j);
      after == if before.task == Held then Standing(Prelude.Some(Job(Running, true)), Gone, true) else before
    ensures var before, after := StandingOf(w, j), StandingOf(EnvStep(w, Finish(j, failed)), j);
      after == if before.row.Some? && before.row.value.status == Running
               then before.(row := Prelude.Some(Job(if failed then Failed else Ended, true))) else before
    ensures var before, after := StandingOf(w, j), StandingOf(EnvStep(w, Delete(j)), j);
      after == if before.row.Some? && before.task != NotYet
               then before.(row := Prelude.None, task := if before.task == Held then Held else Gone) else before
  {
  }
}
