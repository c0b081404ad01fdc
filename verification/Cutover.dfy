/**
 The cutover's capture and cancellation of waiting jobs and the pass that recreates them, racing
 workers and crashes (netbox_scripts/migration/cutover.py, references.py, models/migration.py).
 */
module Cutover {
  import opened Prelude

  /** A built-in Job row. Only a worker sets started. */
  datatype Status = Waiting | Running | Failed | Ended

  datatype Job = Job(status: Status, started: bool)

  /** A job's queue task: not yet handed over, queued, dequeued by a worker that has not started the row, or gone. */
  datatype Task = NotYet | Queued | Held | Gone

  datatype Cancellation = Unset | Cancelling | Cancelled | Executed | LeftRunning | Vanished

  datatype Entry = Entry(job: nat, cancellation: Cancellation)

  /** executed is history: the jobs a worker ever ran. */
  datatype World = World(jobs: map<nat, Job>, tasks: map<nat, Task>, executed: set<nat>)

  /** The stored journal. recreated lists the captured jobs in the order they were recreated. */
  datatype Journal = Journal(schedules: seq<Entry>, done: bool, recreated: seq<nat>)

  datatype Phase = Look | Drop | Update | Refresh | Record

  /** The pass holding the migration lock, with what it keeps in memory. */
  datatype Pass =
    | Idle
    | Capturing(listed: set<nat>, found: seq<nat>)
    | Closing(memory: seq<Entry>, i: nat, phase: Phase)
    | Checking
    | Completing
    | Replaying(next: nat, ready: bool)

  datatype State = State(world: World, journal: Journal, pass: Pass)

  datatype Action =
    // The installation around the migration.
    | Submit(job: nat) | Enqueue(job: nat) | Dequeue(job: nat) | Start(job: nat)
    | Finish(job: nat, failed: bool) | Delete(job: nat)
    // The cutover.
    | Refuse | Enter | CaptureOne(job: nat) | CaptureCommit
    | LookAt | DropTask | FailRow | RefreshRow | RecordOutcome | CloseEnd | CheckUnfinished | Complete
    // The reference pass.
    | Begin | Consider(skip: bool) | Recreate | End
    // A crash of whichever pass runs.
    | Crash

  // ----- The installation ------------------------------------------------------------------------------

  function RowOf(w: World, j: nat): Option<Job> { if j in w.jobs then Some(w.jobs[j]) else None }

  function TaskOf(w: World, j: nat): Task { if j in w.tasks then w.tasks[j] else Gone }

  predicate Cancellable(row: Job) { row.status == Waiting && !row.started }

  function EnvStep(w: World, a: Action): World {
    match a
    case Submit(j) =>
      if j in w.tasks then w else w.(jobs := w.jobs[j := Job(Waiting, false)], tasks := w.tasks[j := NotYet])
    case Enqueue(j) => if j in w.jobs && TaskOf(w, j) == NotYet then w.(tasks := w.tasks[j := Queued]) else w
    case Dequeue(j) => if TaskOf(w, j) == Queued then w.(tasks := w.tasks[j := Held]) else w
    case Start(j) =>
      // The worker saves the row it was handed, whatever the row holds by now.
      if TaskOf(w, j) == Held
      then World(w.jobs[j := Job(Running, true)], w.tasks[j := Gone], w.executed + {j})
      else w
    case Finish(j, failed) =>
      if j in w.jobs && w.jobs[j].status == Running
      then w.(jobs := w.jobs[j := Job(if failed then Failed else Ended, true)]) else w
    case Delete(j) =>
      if j in w.jobs && TaskOf(w, j) != NotYet
      then w.(jobs := w.jobs - {j}, tasks := w.tasks[j := if TaskOf(w, j) == Held then Held else Gone]) else w
    case _ => w
  }

  predicate IsEnv(a: Action) {
    a.Submit? || a.Enqueue? || a.Dequeue? || a.Start? || a.Finish? || a.Delete?
  }

  // ----- The cutover -------------------------------------------------------------------------------------

  predicate SomeRunning(w: World) { exists j :: j in w.jobs && w.jobs[j].status == Running }

  predicate SomeUnfinished(w: World) {
    exists j :: j in w.jobs && (w.jobs[j].status == Running || w.jobs[j].status == Waiting)
  }

  function JobsIn(entries: seq<Entry>): set<nat> { set e | e in entries :: e.job }

  function WithMark(w: World, e: Entry): Entry {
    if e.job in w.jobs && w.jobs[e.job].status == Running then e.(cancellation := LeftRunning) else e
  }

  /** The entries whose job is running, marked before the cutover refuses. */
  function MarkRunning(w: World, entries: seq<Entry>): seq<Entry> {
    seq(|entries|, k requires 0 <= k < |entries| => WithMark(w, entries[k]))
  }

  function Captured(found: seq<nat>): seq<Entry> {
    seq(|found|, k requires 0 <= k < |found| => Entry(found[k], Unset))
  }

  function WaitingJobs(w: World): set<nat> { set j | j in w.jobs && w.jobs[j].status == Waiting }

  function CaptureStep(s: State, a: Action): State {
    match a
    case Refuse =>
      if s.pass.Idle? && !s.journal.done && SomeRunning(s.world)
      then s.(journal := s.journal.(schedules := MarkRunning(s.world, s.journal.schedules))) else s
    case Enter =>
      if s.pass.Idle? && !s.journal.done && !SomeRunning(s.world)
      then s.(pass := Capturing(WaitingJobs(s.world) - JobsIn(s.journal.schedules), [])) else s
    case CaptureOne(j) =>
      // A row whose task is not in the queue yet is reported and left for a later pass.
      if s.pass.Capturing? && j in s.pass.listed && TaskOf(s.world, j) != NotYet
      then s.(pass := Capturing(s.pass.listed - {j}, s.pass.found + [j])) else s
    case CaptureCommit =>
      if s.pass.Capturing?
      then
        var schedules := s.journal.schedules + Captured(s.pass.found);
        s.(journal := s.journal.(schedules := schedules), pass := Closing(schedules, 0, Look))
      else s
    case _ => s
  }

  predicate AtEntry(s: State, phase: Phase) {
    s.pass.Closing? && s.pass.phase == phase && s.pass.i < |s.pass.memory|
  }

  function Resolve(p: Pass, c: Cancellation): (q: Pass)
    requires p.Closing? && p.i < |p.memory|
    ensures q.Closing? && q.i == p.i && |q.memory| == |p.memory| && q.memory[p.i] == Entry(p.memory[p.i].job, c)
  {
    p.(memory := p.memory[p.i := p.memory[p.i].(cancellation := c)])
  }

  /** The entry resolved in memory alone, and the next one up. */
  function ResolveAndPass(p: Pass, c: Cancellation): Pass
    requires p.Closing? && p.i < |p.memory|
  {
    Closing(Resolve(p, c).memory, p.i + 1, Look)
  }

  /** The outcome of a row that is neither waiting nor this cutover's own failure. */
  function TakenBy(row: Job): Cancellation { if row.status == Running then LeftRunning else Executed }

  /** The first read of one entry's row, and the journal write it may lead to. */
  function LookStep(s: State): State
    requires AtEntry(s, Look)
  {
    var p := s.pass;
    var e := p.memory[p.i];
    var row := RowOf(s.world, e.job);
    if e.cancellation == Cancelled then s.(pass := p.(i := p.i + 1))
    else if row.None? then
      s.(pass := ResolveAndPass(p, if e.cancellation in {Executed, LeftRunning} then Executed else Vanished))
    else if e.cancellation == Cancelling && row.value.status != Waiting then
      s.(pass := Resolve(p, if row.value.started then Executed else Cancelled).(phase := Record))
    else if row.value.status == Waiting then
      var q := Resolve(p, Cancelling).(phase := Drop);
      s.(journal := s.journal.(schedules := q.memory), pass := q)
    else s.(pass := ResolveAndPass(p, TakenBy(row.value)))
  }

  function CancelStep(s: State, a: Action): State {
    match a
    case LookAt => if AtEntry(s, Look) then LookStep(s) else s
    case DropTask =>
      if AtEntry(s, Drop)
      then
        var j := s.pass.memory[s.pass.i].job;
        var w := if TaskOf(s.world, j) == Queued then s.world.(tasks := s.world.tasks[j := Gone]) else s.world;
        s.(world := w, pass := s.pass.(phase := Update))
      else s
    case FailRow =>
      if AtEntry(s, Update)
      then
        var j := s.pass.memory[s.pass.i].job;
        if j in s.world.jobs && Cancellable(s.world.jobs[j])
        then s.(world := s.world.(jobs := s.world.jobs[j := Job(Failed, false)]),
                pass := Resolve(s.pass, Cancelled).(phase := Record))
        else s.(pass := s.pass.(phase := Refresh))
      else s
    case RefreshRow =>
      if AtEntry(s, Refresh)
      then
        var row := RowOf(s.world, s.pass.memory[s.pass.i].job);
        s.(pass := ResolveAndPass(s.pass, if row.None? then Vanished else TakenBy(row.value)))
      else s
    case RecordOutcome =>
      if AtEntry(s, Record)
      then s.(journal := s.journal.(schedules := s.pass.memory), pass := s.pass.(i := s.pass.i + 1, phase := Look))
      else s
    case CloseEnd =>
      if s.pass.Closing? && s.pass.i == |s.pass.memory| && s.pass.phase == Look
      then s.(journal := s.journal.(schedules := s.pass.memory), pass := Checking) else s
    case CheckUnfinished =>
      if s.pass.Checking? then s.(pass := if SomeUnfinished(s.world) then Idle else Completing) else s
    case Complete => if s.pass.Completing? then s.(journal := s.journal.(done := true), pass := Idle) else s
    case _ => s
  }

  // ----- The reference pass --------------------------------------------------------------------------------

  /** What stops a captured job from being considered for replay at all. */
  predicate Taken(s: State, e: Entry) {
    || e.job in s.journal.recreated
    || e.cancellation == Executed
    || e.cancellation == LeftRunning
    || (e.cancellation == Cancelled && e.job in s.world.jobs
        && !(s.world.jobs[e.job].status == Failed && !s.world.jobs[e.job].started))
  }

  /** skip stands for every other reason an entry is not replayed: its script, input, owner or due time. */
  function ReplayStep(s: State, a: Action): State {
    match a
    case Begin => if s.pass.Idle? && s.journal.done then s.(pass := Replaying(0, false)) else s
    case Consider(skip) =>
      if s.pass.Replaying? && !s.pass.ready && s.pass.next < |s.journal.schedules|
      then
        if skip || Taken(s, s.journal.schedules[s.pass.next]) then s.(pass := Replaying(s.pass.next + 1, false))
        else s.(pass := s.pass.(ready := true))
      else s
    case Recreate =>
      // One transaction: the new job, and the journal naming it.
      if s.pass.Replaying? && s.pass.ready && s.pass.next < |s.journal.schedules|
      then
        var j := s.journal.schedules[s.pass.next].job;
        s.(journal := s.journal.(recreated := s.journal.recreated + [j]), pass := Replaying(s.pass.next + 1, false))
      else s
    case End => if s.pass.Replaying? && s.pass.next == |s.journal.schedules| then s.(pass := Idle) else s
    case _ => s
  }

  function Step(s: State, a: Action): State {
    if IsEnv(a) then s.(world := EnvStep(s.world, a))
    else if a.Crash? then s.(pass := Idle)
    else if a.Refuse? || a.Enter? || a.CaptureOne? || a.CaptureCommit? then CaptureStep(s, a)
    else if a.Begin? || a.Consider? || a.Recreate? || a.End? then ReplayStep(s, a)
    else CancelStep(s, a)
  }

  function Exec(s: State, actions: seq<Action>): State
    decreases |actions|
  {
    if actions == [] then s else Exec(Step(s, actions[0]), actions[1..])
  }

  /** An installation no migration has touched: every row's started field agrees with the history. */
  ghost predicate Untouched(s: State) {
    s.journal == Journal([], false, []) && s.pass.Idle? && WorldSound(s.world)
  }

  /** The journal says a worker took the job. */
  predicate Marked(c: Cancellation) { c == Executed || c == LeftRunning }

  /** A cutover has read the job's row as waiting and will put it in the journal. */
  predicate BeingCaptured(p: Pass, j: nat) { p.Capturing? && (j in p.listed || j in p.found) }

  /**
   Deleting the row of a job a worker started is safe once the stored journal says so, and of one
   a worker only holds once it is recorded as cancelled. A job no journal names is nobody's concern.
   */
  ghost predicate MayDelete(s: State, j: nat)
    requires j in s.world.jobs
  {
    s.world.jobs[j].started || TaskOf(s.world, j) == Held ==>
      !BeingCaptured(s.pass, j) && forall k :: 0 <= k < |s.journal.schedules| ==> LetsGo(s, s.journal.schedules[k], j)
  }

  predicate LetsGo(s: State, e: Entry, j: nat)
    requires j in s.world.jobs
  {
    e.job == j ==> Marked(e.cancellation) || (e.cancellation == Cancelled && !s.world.jobs[j].started)
  }

  /** The pass stands before an entry nothing stops it from replaying. */
  predicate BeforeReplay(s: State) {
    && s.pass.Replaying? && !s.pass.ready && s.pass.next < |s.journal.schedules|
    && !Taken(s, s.journal.schedules[s.pass.next])
  }

  /**
   What the guarantee takes for granted of a step: a deletion is one of those, and a schedule is
   replayed only while no worker holds its old task.
   */
  ghost predicate Orderly(s: State, a: Action) {
    && (a.Delete? && a.job in s.world.jobs ==> MayDelete(s, a.job))
    && (a.Consider? && !a.skip && BeforeReplay(s) ==> TaskOf(s.world, s.journal.schedules[s.pass.next].job) != Held)
  }

  ghost predicate OrderlyRun(s: State, actions: seq<Action>)
    decreases |actions|
  {
    actions == [] || (Orderly(s, actions[0]) && OrderlyRun(Step(s, actions[0]), actions[1..]))
  }

  // ----- What every orderly step keeps -----------------------------------------------------------------------

  /** One job's row, task and history agree. */
  ghost predicate JobSound(w: World, j: nat) {
    && (j in w.jobs || j in w.executed ==> j in w.tasks)
    && (j in w.jobs ==> (w.jobs[j].started <==> j in w.executed)
                        && (w.jobs[j].status == Waiting ==> !w.jobs[j].started)
                        && (w.jobs[j].status in {Running, Ended} ==> w.jobs[j].started)
                        && (w.jobs[j].status == Failed ==> TaskOf(w, j) in {Held, Gone}))
    && (j !in w.jobs && j in w.tasks ==> w.tasks[j] in {Held, Gone})
    && (TaskOf(w, j) != Gone ==> j !in w.executed)
  }

  ghost predicate WorldSound(w: World) { forall j :: JobSound(w, j) }

  predicate OwnFailure(w: World, j: nat) { j in w.jobs && w.jobs[j].status == Failed && !w.jobs[j].started }

  predicate Off(w: World, j: nat) { TaskOf(w, j) in {Held, Gone} && (j in w.jobs ==> w.jobs[j].status != Waiting) }

  /** A job that is out of the queue for good and that no worker ran. */
  predicate NeverRuns(w: World, j: nat) { j in w.tasks && w.tasks[j] == Gone && j !in w.executed }

  /** What a journal entry may claim of its job. */
  ghost predicate EntrySound(w: World, e: Entry) {
    && e.job in w.tasks && w.tasks[e.job] != NotYet
    && (e.cancellation == Cancelled ==> Off(w, e.job) && (e.job !in w.jobs ==> e.job !in w.executed))
    && (Marked(e.cancellation) ==> e.job in w.executed)
    && (e.cancellation == Vanished ==> e.job !in w.jobs)
    && (e.cancellation in {Unset, Cancelling, Vanished} && e.job !in w.jobs ==> NeverRuns(w, e.job))
    && (OwnFailure(w, e.job) ==> e.cancellation in {Cancelling, Cancelled})
  }

  ghost predicate EntriesSound(w: World, entries: seq<Entry>) {
    forall k :: 0 <= k < |entries| ==> EntrySound(w, entries[k])
  }

  ghost predicate DistinctJobs(entries: seq<Entry>) {
    forall i, k :: 0 <= i < k < |entries| ==> entries[i].job != entries[k].job
  }

  predicate Resolved(c: Cancellation) { c in {Cancelled, Executed, LeftRunning, Vanished} }

  ghost predicate ResolvedBelow(entries: seq<Entry>, n: nat) {
    forall k :: 0 <= k < n && k < |entries| ==> Resolved(entries[k].cancellation)
  }

  ghost predicate RecreatedSound(w: World, recreated: seq<nat>) {
    && (forall k :: 0 <= k < |recreated| ==> NeverRuns(w, recreated[k]))
    && (forall i, k :: 0 <= i < k < |recreated| ==> recreated[i] != recreated[k])
  }

  ghost predicate JournalSound(w: World, journal: Journal) {
    && EntriesSound(w, journal.schedules)
    && DistinctJobs(journal.schedules)
    && (journal.done ==> ResolvedBelow(journal.schedules, |journal.schedules|))
    && RecreatedSound(w, journal.recreated)
  }

  ghost predicate SameJobs(a: seq<Entry>, b: seq<Entry>) {
    |a| == |b| && forall k :: 0 <= k < |a| ==> a[k].job == b[k].job
  }

  predicate ListedSound(w: World, j: nat) {
    j in w.tasks && !OwnFailure(w, j) && (j !in w.jobs ==> NeverRuns(w, j))
  }

  /** What the memory of a pass may differ in from the stored entry. */
  predicate Outruns(stored: Entry, memory: Entry) {
    && (Marked(stored.cancellation) ==> Marked(memory.cancellation))
    && (stored.cancellation == Cancelled ==> memory == stored)
  }

  ghost predicate AllOutrun(stored: seq<Entry>, memory: seq<Entry>) {
    |stored| == |memory| && forall k :: 0 <= k < |stored| ==> Outruns(stored[k], memory[k])
  }

  ghost predicate CapturingSound(w: World, journal: Journal, listed: set<nat>, found: seq<nat>) {
    && !journal.done
    && (forall j :: j in listed ==> ListedSound(w, j))
    && EntriesSound(w, Captured(found))
    && (forall i, k :: 0 <= i < k < |found| ==> found[i] != found[k])
    && (forall k :: 0 <= k < |found| ==> found[k] !in listed && found[k] !in JobsIn(journal.schedules))
    && listed !! JobsIn(journal.schedules)
  }

  ghost predicate ClosingSound(w: World, journal: Journal, p: Pass)
    requires p.Closing?
  {
    && !journal.done && p.i <= |p.memory|
    && SameJobs(p.memory, journal.schedules)
    && AllOutrun(journal.schedules, p.memory)
    && EntriesSound(w, p.memory)
    && ResolvedBelow(p.memory, p.i)
    && (p.phase != Look ==> p.i < |p.memory| && PhaseSound(w, journal, p.memory[p.i], p.i, p.phase))
  }

  ghost predicate PhaseSound(w: World, journal: Journal, e: Entry, i: nat, phase: Phase) {
    match phase
    case Look => true
    case Drop => e.cancellation == Cancelling && i < |journal.schedules| && journal.schedules[i] == e
                 && !OwnFailure(w, e.job)
    case Update => e.cancellation == Cancelling && i < |journal.schedules| && journal.schedules[i] == e
                   && !OwnFailure(w, e.job) && TaskOf(w, e.job) in {Held, Gone}
    case Refresh => e.cancellation == Cancelling && i < |journal.schedules| && journal.schedules[i] == e
                    && (e.job in w.jobs ==> w.jobs[e.job].started)
    case Record => Resolved(e.cancellation)
  }

  ghost predicate PassSound(w: World, journal: Journal, p: Pass) {
    match p
    case Idle => true
    case Capturing(listed, found) => CapturingSound(w, journal, listed, found)
    case Closing(_, _, _) => ClosingSound(w, journal, p)
    case Checking => !journal.done && ResolvedBelow(journal.schedules, |journal.schedules|)
    case Completing => !journal.done && ResolvedBelow(journal.schedules, |journal.schedules|)
    case Replaying(next, ready) => ReplayingSound(w, journal, next, ready)
  }

  ghost predicate ReplayingSound(w: World, journal: Journal, next: nat, ready: bool) {
    && journal.done
    && (ready ==> next < |journal.schedules| && NeverRuns(w, journal.schedules[next].job)
                  && journal.schedules[next].job !in journal.recreated)
  }

  ghost predicate Sound(s: State) {
    && WorldSound(s.world)
    && JournalSound(s.world, s.journal)
    && PassSound(s.world, s.journal, s.pass)
  }

  // ----- The installation's own steps --------------------------------------------------------------------------

  /** What no step of the installation, save some deletions, does to one job. */
  ghost predicate Onward(w: World, v: World, j: nat)
    requires j in w.tasks
  {
    && j in v.tasks
    && (w.tasks[j] != NotYet ==> v.tasks[j] != NotYet)
    && (w.tasks[j] in {Held, Gone} ==> v.tasks[j] in {Held, Gone})
    && (w.tasks[j] == Gone ==> v.tasks[j] == Gone)
    && (j in w.executed ==> j in v.executed)
    && (j in v.executed && j !in w.executed ==> w.tasks[j] == Held && j in v.jobs)
    && (j in v.jobs && j !in w.jobs ==> w.tasks[j] == Held && v.jobs[j].started)
    && (j in w.jobs && j !in v.jobs ==> NeverRuns(v, j))
    && (j in w.jobs && j in v.jobs && w.jobs[j].status != Waiting ==> v.jobs[j].status != Waiting)
    && (j in w.jobs && j in v.jobs && w.jobs[j].started ==> v.jobs[j].started)
    && (OwnFailure(v, j) ==> OwnFailure(w, j))
  }

  ghost predicate AllOnward(w: World, v: World) { forall j :: j in w.tasks ==> Onward(w, v, j) }

  /** A deletion of a row a worker started or may yet start. */
  predicate Perilous(w: World, a: Action) {
    a.Delete? && a.job in w.jobs && (w.jobs[a.job].started || TaskOf(w, a.job) == Held)
  }

  lemma {:induction false} EnvKeepsWorld(w: World, a: Action)
    requires IsEnv(a) && WorldSound(w)
    ensures WorldSound(EnvStep(w, a))
  {
    var v := EnvStep(w, a);
    forall j ensures JobSound(v, j) {
      assert JobSound(w, j) && JobSound(w, a.job);
    }
  }

  lemma {:induction false} EnvIsOnward(w: World, a: Action)
    requires IsEnv(a) && WorldSound(w) && !Perilous(w, a)
    ensures AllOnward(w, EnvStep(w, a))
  {
    var v := EnvStep(w, a);
    forall j | j in w.tasks ensures Onward(w, v, j) {
      assert JobSound(w, j) && JobSound(w, a.job);
    }
  }

  lemma {:induction false} EntryStands(w: World, v: World, e: Entry)
    requires WorldSound(v) && AllOnward(w, v) && EntrySound(w, e)
    ensures EntrySound(v, e)
  {
    assert Onward(w, v, e.job) && JobSound(v, e.job);
  }

  lemma {:induction false} EntriesStand(w: World, v: World, entries: seq<Entry>)
    requires WorldSound(v) && AllOnward(w, v) && EntriesSound(w, entries)
    ensures EntriesSound(v, entries)
  {
    forall k | 0 <= k < |entries| ensures EntrySound(v, entries[k]) {
      EntryStands(w, v, entries[k]);
    }
  }

  lemma {:induction false} JournalStands(w: World, v: World, journal: Journal)
    requires WorldSound(v) && AllOnward(w, v) && JournalSound(w, journal)
    ensures JournalSound(v, journal)
  {
    EntriesStand(w, v, journal.schedules);
    forall k | 0 <= k < |journal.recreated| ensures NeverRuns(v, journal.recreated[k]) {
      assert NeverRuns(w, journal.recreated[k]) && Onward(w, v, journal.recreated[k]);
    }
  }

  lemma {:induction false} PassStands(w: World, v: World, journal: Journal, p: Pass)
    requires WorldSound(w) && WorldSound(v) && AllOnward(w, v) && JournalSound(w, journal) && PassSound(w, journal, p)
    ensures PassSound(v, journal, p)
  {
    match p
    case Idle =>
    case Checking =>
    case Completing =>
    case Capturing(listed, found) =>
      EntriesStand(w, v, Captured(found));
      forall j | j in listed ensures ListedSound(v, j) {
        assert Onward(w, v, j) && ListedSound(w, j) && JobSound(v, j);
      }
    case Closing(memory, i, phase) =>
      EntriesStand(w, v, memory);
      if phase != Look {
        PhaseStands(w, v, journal, memory[i], i, phase);
      }
    case Replaying(next, ready) =>
      if ready {
        assert Onward(w, v, journal.schedules[next].job);
      }
  }

  lemma {:induction false} PhaseStands(w: World, v: World, journal: Journal, e: Entry, i: nat, phase: Phase)
    requires AllOnward(w, v) && EntrySound(w, e) && PhaseSound(w, journal, e, i, phase)
    ensures PhaseSound(v, journal, e, i, phase)
  {
    assert Onward(w, v, e.job);
  }

  /** An entry stands when the row of another job goes, and its own does when the entry lets it go. */
  lemma {:induction false} EntrySurvives(s: State, j: nat, e: Entry)
    requires WorldSound(s.world) && EntrySound(s.world, e) && Perilous(s.world, Delete(j)) && LetsGo(s, e, j)
    ensures EntrySound(EnvStep(s.world, Delete(j)), e)
  {
    assert JobSound(s.world, j) && JobSound(s.world, e.job);
  }

  lemma {:induction false} EntriesSurvive(s: State, j: nat, entries: seq<Entry>)
    requires WorldSound(s.world) && EntriesSound(s.world, entries) && Perilous(s.world, Delete(j))
    requires forall k :: 0 <= k < |entries| ==> LetsGo(s, entries[k], j)
    ensures EntriesSound(EnvStep(s.world, Delete(j)), entries)
  {
    forall k | 0 <= k < |entries| ensures EntrySound(EnvStep(s.world, Delete(j)), entries[k]) {
      EntrySurvives(s, j, entries[k]);
    }
  }

  lemma {:induction false} CapturingSurvives(s: State, j: nat)
    requires Sound(s) && s.pass.Capturing? && Perilous(s.world, Delete(j)) && MayDelete(s, j)
    ensures PassSound(EnvStep(s.world, Delete(j)), s.journal, s.pass)
  {
    EntriesSurvive(s, j, Captured(s.pass.found));
    forall i | i in s.pass.listed ensures ListedSound(EnvStep(s.world, Delete(j)), i) {
      assert ListedSound(s.world, i);
    }
  }

  lemma {:induction false} ClosingSurvives(s: State, j: nat)
    requires Sound(s) && s.pass.Closing? && Perilous(s.world, Delete(j)) && MayDelete(s, j)
    ensures PassSound(EnvStep(s.world, Delete(j)), s.journal, s.pass)
  {
    var p, stored := s.pass, s.journal.schedules;
    forall k | 0 <= k < |p.memory| ensures LetsGo(s, p.memory[k], j) {
      assert LetsGo(s, stored[k], j) && Outruns(stored[k], p.memory[k]);
    }
    EntriesSurvive(s, j, p.memory);
    if p.phase != Look {
      assert LetsGo(s, stored[p.i], j);
    }
  }

  lemma {:induction false} PerilSurvived(s: State, j: nat)
    requires Sound(s) && Perilous(s.world, Delete(j)) && MayDelete(s, j)
    ensures Sound(Step(s, Delete(j)))
  {
    EnvKeepsWorld(s.world, Delete(j));
    EntriesSurvive(s, j, s.journal.schedules);
    assert JobSound(s.world, j);
    assert RecreatedSound(EnvStep(s.world, Delete(j)), s.journal.recreated) by {
      forall k | 0 <= k < |s.journal.recreated| ensures NeverRuns(EnvStep(s.world, Delete(j)), s.journal.recreated[k]) {
        assert NeverRuns(s.world, s.journal.recreated[k]);
      }
    }
    if s.pass.Capturing? {
      CapturingSurvives(s, j);
    } else if s.pass.Closing? {
      ClosingSurvives(s, j);
    }
  }

  lemma {:induction false} EnvSound(s: State, a: Action)
    requires Sound(s) && IsEnv(a) && Orderly(s, a)
    ensures Sound(Step(s, a))
  {
    if Perilous(s.world, a) {
      PerilSurvived(s, a.job);
    } else {
      EnvKeepsWorld(s.world, a);
      EnvIsOnward(s.world, a);
      JournalStands(s.world, EnvStep(s.world, a), s.journal);
      PassStands(s.world, EnvStep(s.world, a), s.journal, s.pass);
    }
  }

  // ----- The cutover's steps ---------------------------------------------------------------------------------------

  lemma {:induction false} RefuseSound(s: State)
    requires Sound(s) && s.pass.Idle?
    ensures JournalSound(s.world, s.journal.(schedules := MarkRunning(s.world, s.journal.schedules)))
  {
    var marked := MarkRunning(s.world, s.journal.schedules);
    forall k | 0 <= k < |marked| ensures EntrySound(s.world, marked[k]) {
      assert EntrySound(s.world, s.journal.schedules[k]) && JobSound(s.world, s.journal.schedules[k].job);
    }
    assert SameJobs(marked, s.journal.schedules);
  }

  lemma {:induction false} JobIsIn(entries: seq<Entry>, k: nat)
    requires k < |entries|
    ensures entries[k].job in JobsIn(entries)
  {
    assert entries[k] in entries;
  }

  lemma {:induction false} CommitSound(w: World, journal: Journal, listed: set<nat>, found: seq<nat>)
    requires WorldSound(w) && JournalSound(w, journal) && CapturingSound(w, journal, listed, found)
    ensures var schedules := journal.schedules + Captured(found);
      EntriesSound(w, schedules) && DistinctJobs(schedules)
  {
    var n, schedules := |journal.schedules|, journal.schedules + Captured(found);
    forall k | 0 <= k < |schedules| ensures EntrySound(w, schedules[k]) {
      if k >= n { assert EntrySound(w, Captured(found)[k - n]); }
    }
    forall i, k | 0 <= i < k < |schedules| ensures schedules[i].job != schedules[k].job {
      if i < n <= k {
        JobIsIn(journal.schedules, i);
        assert schedules[k].job == found[k - n];
      } else if n <= i {
        assert schedules[i].job == found[i - n] && schedules[k].job == found[k - n];
      }
    }
  }

  lemma {:induction false} CaptureSound(s: State, a: Action)
    requires Sound(s) && (a.Refuse? || a.Enter? || a.CaptureOne? || a.CaptureCommit?)
    ensures Sound(Step(s, a))
  {
    var w, journal := s.world, s.journal;
    if a.Refuse? && s.pass.Idle? {
      RefuseSound(s);
    } else if a.Enter? {
      forall j | j in WaitingJobs(w) ensures ListedSound(w, j) {
        assert JobSound(w, j);
      }
    } else if a.CaptureOne? && s.pass.Capturing? && a.job in s.pass.listed && TaskOf(w, a.job) != NotYet {
      assert ListedSound(w, a.job) && JobSound(w, a.job);
      var found := s.pass.found + [a.job];
      assert Captured(found) == Captured(s.pass.found) + [Entry(a.job, Unset)];
      assert EntrySound(w, Entry(a.job, Unset));
    } else if a.CaptureCommit? && s.pass.Capturing? {
      CommitSound(w, journal, s.pass.listed, s.pass.found);
    }
  }

  lemma {:induction false} ResolveSound(w: World, journal: Journal, p: Pass, c: Cancellation)
    requires p.Closing? && ClosingSound(w, journal, p) && p.i < |p.memory|
    requires EntrySound(w, p.memory[p.i].(cancellation := c))
    requires Outruns(journal.schedules[p.i], p.memory[p.i].(cancellation := c))
    ensures var q := Resolve(p, c);
      SameJobs(q.memory, journal.schedules) && AllOutrun(journal.schedules, q.memory)
      && EntriesSound(w, q.memory) && ResolvedBelow(q.memory, p.i)
      && (Resolved(c) ==> ResolvedBelow(q.memory, p.i + 1))
  {
  }

  lemma {:induction false} JobsStayDistinct(a: seq<Entry>, b: seq<Entry>)
    requires SameJobs(a, b) && DistinctJobs(b)
    ensures DistinctJobs(a)
  {
  }

  lemma {:induction false} LookSound(s: State)
    requires Sound(s) && AtEntry(s, Look)
    ensures Sound(LookStep(s))
  {
    var w, p := s.world, s.pass;
    var e := p.memory[p.i];
    var row := RowOf(w, e.job);
    assert EntrySound(w, e) && JobSound(w, e.job);
    if e.cancellation == Cancelled {
    } else if row.None? {
      ResolveSound(w, s.journal, p, if e.cancellation in {Executed, LeftRunning} then Executed else Vanished);
    } else if e.cancellation == Cancelling && row.value.status != Waiting {
      ResolveSound(w, s.journal, p, if row.value.started then Executed else Cancelled);
    } else if row.value.status == Waiting {
      ResolveSound(w, s.journal, p, Cancelling);
      JobsStayDistinct(Resolve(p, Cancelling).memory, s.journal.schedules);
    } else {
      ResolveSound(w, s.journal, p, TakenBy(row.value));
    }
  }

  lemma {:induction false} DropIsOnward(w: World, j: nat)
    requires WorldSound(w) && TaskOf(w, j) == Queued && j in w.tasks
    ensures var v := w.(tasks := w.tasks[j := Gone]); WorldSound(v) && AllOnward(w, v)
  {
    var v := w.(tasks := w.tasks[j := Gone]);
    forall k ensures JobSound(v, k) && (k in w.tasks ==> Onward(w, v, k)) {
      assert JobSound(w, k);
    }
  }

  lemma {:induction false} DropSound(s: State)
    requires Sound(s) && AtEntry(s, Drop)
    ensures Sound(CancelStep(s, DropTask))
  {
    var e := s.pass.memory[s.pass.i];
    assert EntrySound(s.world, e);
    if TaskOf(s.world, e.job) == Queued {
      var v := s.world.(tasks := s.world.tasks[e.job := Gone]);
      DropIsOnward(s.world, e.job);
      JournalStands(s.world, v, s.journal);
      EntriesStand(s.world, v, s.pass.memory);
      assert OwnFailure(v, e.job) ==> OwnFailure(s.world, e.job);
    }
  }

  lemma {:induction false} FailedRowSound(w: World, j: nat, entries: seq<Entry>)
    requires WorldSound(w) && j in w.jobs && Cancellable(w.jobs[j]) && TaskOf(w, j) in {Held, Gone}
    requires EntriesSound(w, entries)
    requires forall k :: 0 <= k < |entries| && entries[k].job == j ==>
             entries[k].cancellation in {Cancelling, Cancelled}
    ensures WorldSound(w.(jobs := w.jobs[j := Job(Failed, false)]))
    ensures EntriesSound(w.(jobs := w.jobs[j := Job(Failed, false)]), entries)
  {
    var v := w.(jobs := w.jobs[j := Job(Failed, false)]);
    forall k ensures JobSound(v, k) {
      assert JobSound(w, k);
    }
    forall k | 0 <= k < |entries| ensures EntrySound(v, entries[k]) {
      assert EntrySound(w, entries[k]);
    }
  }

  lemma {:induction false} OnlyItsEntry(entries: seq<Entry>, i: nat, j: nat)
    requires i < |entries| && DistinctJobs(entries) && entries[i].job == j
             && entries[i].cancellation in {Cancelling, Cancelled}
    ensures forall k :: 0 <= k < |entries| && entries[k].job == j ==> entries[k].cancellation in {Cancelling, Cancelled}
  {
    forall k | 0 <= k < |entries| && entries[k].job == j ensures k == i {
    }
  }

  lemma {:induction false} FailSound(s: State)
    requires Sound(s) && AtEntry(s, Update)
    ensures Sound(CancelStep(s, FailRow))
  {
    var w, p, journal := s.world, s.pass, s.journal;
    var j := p.memory[p.i].job;
    assert JobSound(w, j) && EntrySound(w, p.memory[p.i]);
    if j in w.jobs && Cancellable(w.jobs[j]) {
      var v := w.(jobs := w.jobs[j := Job(Failed, false)]);
      JobsStayDistinct(p.memory, journal.schedules);
      OnlyItsEntry(journal.schedules, p.i, j);
      OnlyItsEntry(p.memory, p.i, j);
      FailedRowSound(w, j, journal.schedules);
      FailedRowSound(w, j, p.memory);
      assert ClosingSound(v, journal, p.(phase := Look));
      ResolveSound(v, journal, p.(phase := Look), Cancelled);
      assert JournalSound(v, journal);
    }
  }

  lemma {:induction false} CancelSound(s: State, a: Action)
    requires Sound(s)
    ensures Sound(CancelStep(s, a))
  {
    if a.LookAt? && AtEntry(s, Look) {
      LookSound(s);
    } else if a.DropTask? && AtEntry(s, Drop) {
      DropSound(s);
    } else if a.FailRow? && AtEntry(s, Update) {
      FailSound(s);
    } else if a.RefreshRow? && AtEntry(s, Refresh) {
      RefreshSound(s);
    } else if a.RecordOutcome? && AtEntry(s, Record) {
      JobsStayDistinct(s.pass.memory, s.journal.schedules);
    } else if a.CloseEnd? && s.pass.Closing? {
      JobsStayDistinct(s.pass.memory, s.journal.schedules);
    }
  }

  lemma {:induction false} RefreshSound(s: State)
    requires Sound(s) && AtEntry(s, Refresh)
    ensures Sound(CancelStep(s, RefreshRow))
  {
    var row := RowOf(s.world, s.pass.memory[s.pass.i].job);
    assert EntrySound(s.world, s.pass.memory[s.pass.i]) && JobSound(s.world, s.pass.memory[s.pass.i].job);
    ResolveSound(s.world, s.journal, s.pass, if row.None? then Vanished else TakenBy(row.value));
  }

  // ----- The reference pass's steps -------------------------------------------------------------------------------

  lemma {:induction false} ReadyToReplay(s: State, k: nat)
    requires Sound(s) && s.journal.done && k < |s.journal.schedules| && !Taken(s, s.journal.schedules[k])
    requires TaskOf(s.world, s.journal.schedules[k].job) != Held
    ensures NeverRuns(s.world, s.journal.schedules[k].job) && s.journal.schedules[k].job !in s.journal.recreated
  {
    var e := s.journal.schedules[k];
    assert EntrySound(s.world, e) && JobSound(s.world, e.job) && Resolved(e.cancellation);
  }

  lemma {:induction false} ReplaySound(s: State, a: Action)
    requires Sound(s) && Orderly(s, a) && (a.Begin? || a.Consider? || a.Recreate? || a.End?)
    ensures Sound(Step(s, a))
  {
    if a.Consider? && s.pass.Replaying? && !s.pass.ready && s.pass.next < |s.journal.schedules| {
      if !a.skip && !Taken(s, s.journal.schedules[s.pass.next]) {
        ReadyToReplay(s, s.pass.next);
      }
    } else if a.Recreate? && s.pass.Replaying? && s.pass.ready {
      var j := s.journal.schedules[s.pass.next].job;
      var recreated := s.journal.recreated + [j];
      assert forall k :: 0 <= k < |s.journal.recreated| ==> s.journal.recreated[k] != j;
      assert RecreatedSound(s.world, recreated);
    }
  }

  lemma {:induction false} StepSound(s: State, a: Action)
    requires Sound(s) && Orderly(s, a)
    ensures Sound(Step(s, a))
  {
    if IsEnv(a) {
      EnvSound(s, a);
    } else if a.Crash? {
    } else if a.Refuse? || a.Enter? || a.CaptureOne? || a.CaptureCommit? {
      CaptureSound(s, a);
    } else if a.Begin? || a.Consider? || a.Recreate? || a.End? {
      ReplaySound(s, a);
    } else {
      CancelSound(s, a);
    }
  }

  lemma {:induction false} RunSound(s: State, actions: seq<Action>)
    requires Sound(s) && OrderlyRun(s, actions)
    ensures Sound(Exec(s, actions))
    decreases |actions|
  {
    if actions != [] {
      StepSound(s, actions[0]);
      RunSound(Step(s, actions[0]), actions[1..]);
    }
  }

  // ----- The guarantees ------------------------------------------------------------------------------------

  ghost predicate NoneTwice(s: State) {
    forall i, k :: 0 <= i < k < |s.journal.recreated| ==> s.journal.recreated[i] != s.journal.recreated[k]
  }

  ghost predicate NoneExecutedAndRecreated(s: State) {
    forall j :: j in s.journal.recreated ==> j !in s.world.executed && TaskOf(s.world, j) == Gone
  }

  /** What the journal says of a job a worker took is true of it. */
  ghost predicate MarksAreTrue(s: State) {
    forall e :: e in s.journal.schedules && e.cancellation in {Executed, LeftRunning} ==> e.job in s.world.executed
  }

  /**
   Over every orderly run, with crashes between any two writes and workers acting between any two
   steps: no captured job is recreated twice, none is both executed and recreated, in either order,
   and none is passed over as executed unless a worker did run it. CutoverExact shows that orderly
   is exactly what this needs.
   */
  lemma {:induction false} RecreatedOnceAndNeverExecuted(s: State, actions: seq<Action>)
    requires Untouched(s) && OrderlyRun(s, actions)
    ensures var end := Exec(s, actions); NoneTwice(end) && NoneExecutedAndRecreated(end) && MarksAreTrue(end)
  {
    RunSound(s, actions);
    var end := Exec(s, actions);
    forall j | j in end.journal.recreated ensures j !in end.world.executed && TaskOf(end.world, j) == Gone {
      var k :| 0 <= k < |end.journal.recreated| && end.journal.recreated[k] == j;
      assert NeverRuns(end.world, end.journal.recreated[k]);
    }
    forall e | e in end.journal.schedules && e.cancellation in {Executed, LeftRunning}
      ensures e.job in end.world.executed
    {
      var k :| 0 <= k < |end.journal.schedules| && end.journal.schedules[k] == e;
      assert EntrySound(end.world, end.journal.schedules[k]);
    }
  }

  // ----- Why both assumptions are needed -------------------------------------------------------------------

  lemma {:induction false} ExecAfter(s: State, first: seq<Action>, t: State, rest: seq<Action>, u: State)
    requires Exec(s, first) == t && Exec(t, rest) == u
    ensures Exec(s, first + rest) == u
    decreases |first|
  {
    if first == [] {
      assert first + rest == rest;
    } else {
      assert (first + rest)[0] == first[0] && (first + rest)[1..] == first[1..] + rest;
      ExecAfter(Step(s, first[0]), first[1..], t, rest, u);
    }
  }

  lemma {:induction false} ExecOne(s: State, a: Action)
    ensures Exec(s, [a]) == Step(s, a)
  {
    assert [a][1..] == [];
  }

  lemma {:induction false} ExecThree(s: State, a: Action, b: Action, c: Action)
    ensures Exec(s, [a, b, c]) == Step(Step(Step(s, a), b), c)
  {
    ExecOne(s, a);
    ExecOne(Step(s, a), b);
    ExecOne(Step(Step(s, a), b), c);
    ExecAfter(s, [a], Step(s, a), [b], Step(Step(s, a), b));
    ExecAfter(s, [a] + [b], Step(Step(s, a), b), [c], Step(Step(Step(s, a), b), c));
    assert [a] + [b] + [c] == [a, b, c];
  }

  /** One waiting job, and where its task is. */
  function OneJob(task: Task): State {
    State(World(map[1 := Job(Waiting, false)], map[1 := task], {}), Journal([], false, []), Idle)
  }

  lemma {:induction false} EnterOneJob(task: Task)
    ensures Step(OneJob(task), Enter) == OneJob(task).(pass := Capturing({1}, []))
  {
    assert WaitingJobs(OneJob(task).world) == {1};
    assert JobsIn([]) == {} && {1} - {} == {1};
  }

  lemma {:induction false} TakeOneJob(task: Task)
    requires task in {Queued, Held}
    ensures Step(OneJob(task).(pass := Capturing({1}, [])), CaptureOne(1)) == OneJob(task).(pass := Capturing({}, [1]))
  {
    assert {1} - {1} == {} && [] + [1] == [1];
  }

  lemma {:induction false} CommitOneJob(w: World)
    ensures Step(State(w, Journal([], false, []), Capturing({}, [1])), CaptureCommit)
         == State(w, Journal([Entry(1, Unset)], false, []), Closing([Entry(1, Unset)], 0, Look))
  {
    assert [] + Captured([1]) == [Entry(1, Unset)];
  }

  lemma {:induction false} CaptureOneJob(task: Task)
    requires task in {Queued, Held}
    ensures Exec(OneJob(task), [Enter, CaptureOne(1), CaptureCommit])
         == OneJob(task).(journal := Journal([Entry(1, Unset)], false, []), pass := Closing([Entry(1, Unset)], 0, Look))
  {
    EnterOneJob(task);
    TakeOneJob(task);
    CommitOneJob(OneJob(task).world);
    ExecThree(OneJob(task), Enter, CaptureOne(1), CaptureCommit);
  }

  /** The closing steps, once the one entry is settled in memory and nothing is left unfinished. */
  lemma {:induction false} FinishOneJob(w: World, stored: seq<Entry>, e: Entry)
    requires !SomeUnfinished(w)
    ensures Exec(State(w, Journal(stored, false, []), Closing([e], 1, Look)), [CloseEnd, CheckUnfinished, Complete])
         == State(w, Journal([e], true, []), Idle)
  {
    ExecThree(State(w, Journal(stored, false, []), Closing([e], 1, Look)), CloseEnd, CheckUnfinished, Complete);
  }

  lemma {:induction false} ReplayOneJob(w: World, e: Entry)
    requires !Taken(State(w, Journal([e], true, []), Replaying(0, false)), e)
    ensures Exec(State(w, Journal([e], true, []), Idle), [Begin, Consider(false), Recreate])
         == State(w, Journal([e], true, [e.job]), Replaying(1, false))
  {
    var s := State(w, Journal([e], true, []), Idle);
    ExecThree(s, Begin, Consider(false), Recreate);
    assert Step(s, Begin) == s.(pass := Replaying(0, false));
    assert Step(Step(s, Begin), Consider(false)) == s.(pass := Replaying(0, true));
    assert [] + [e.job] == [e.job];
  }

  const CAPTURE := [Enter, CaptureOne(1), CaptureCommit]
  const CANCEL := [LookAt, DropTask, FailRow]
  const CLOSE := [CloseEnd, CheckUnfinished, Complete]
  const REPLAY := [Begin, Consider(false), Recreate]

  function HeldAndFailed(): World { World(map[1 := Job(Failed, false)], map[1 := Held], {}) }

  /** The one job captured, and nothing done about it yet. */
  function OneCaptured(w: World): State {
    State(w, Journal([Entry(1, Unset)], false, []), Closing([Entry(1, Unset)], 0, Look))
  }

  /** The one job's row failed, its entry resolved in memory, and what the stored one says. */
  function OneFailed(stored: Cancellation, i: nat, phase: Phase): State {
    State(HeldAndFailed(), Journal([Entry(1, stored)], false, []), Closing([Entry(1, Cancelled)], i, phase))
  }

  function OneClosed(w: World, c: Cancellation): State { State(w, Journal([Entry(1, c)], true, []), Idle) }

  lemma {:induction false} CaptureAndCancel()
    ensures Exec(OneJob(Held), CAPTURE + CANCEL)
         == OneFailed(Cancelling, 0, Record)
  {
    var failed := OneFailed(Cancelling, 0, Record);
    CaptureOneJob(Held);
    CancelHeldJob();
    ExecAfter(OneJob(Held), CAPTURE, OneCaptured(OneJob(Held).world), CANCEL, failed);
  }

  lemma {:induction false} RecordOne()
    ensures Exec(OneFailed(Cancelling, 0, Record),
                 [RecordOutcome])
         == OneFailed(Cancelled, 1, Look)
  {
    ExecOne(OneFailed(Cancelling, 0, Record),
            RecordOutcome);
  }

  lemma {:induction false} RecordAndClose()
    ensures Exec(OneFailed(Cancelling, 0, Record),
                 [RecordOutcome] + CLOSE) == OneClosed(HeldAndFailed(), Cancelled)
  {
    var failed := OneFailed(Cancelling, 0, Record);
    var recorded := OneFailed(Cancelled, 1, Look);
    RecordOne();
    FinishOneJob(HeldAndFailed(), [Entry(1, Cancelled)], Entry(1, Cancelled));
    ExecAfter(failed, [RecordOutcome], recorded, CLOSE, OneClosed(HeldAndFailed(), Cancelled));
  }

  lemma {:induction false} CutOverHeldJob()
    ensures Exec(OneJob(Held), CAPTURE + CANCEL + ([RecordOutcome] + CLOSE)) == OneClosed(HeldAndFailed(), Cancelled)
  {
    var failed := OneFailed(Cancelling, 0, Record);
    CaptureAndCancel();
    RecordAndClose();
    ExecAfter(OneJob(Held), CAPTURE + CANCEL, failed, [RecordOutcome] + CLOSE, OneClosed(HeldAndFailed(), Cancelled));
  }

  lemma {:induction false} StartOne(s: State)
    requires TaskOf(s.world, 1) == Held && 1 in s.journal.recreated
    ensures 1 in Exec(s, [Start(1)]).journal.recreated && 1 in Exec(s, [Start(1)]).world.executed
  {
    ExecOne(s, Start(1));
  }

  lemma {:induction false} StartRecreatedJob()
    ensures var end := Exec(OneClosed(HeldAndFailed(), Cancelled), REPLAY + [Start(1)]);
      1 in end.journal.recreated && 1 in end.world.executed
  {
    var s := OneClosed(HeldAndFailed(), Cancelled);
    var replayed := State(HeldAndFailed(), Journal([Entry(1, Cancelled)], true, [1]), Replaying(1, false));
    ReplayOneJob(HeldAndFailed(), Entry(1, Cancelled));
    StartOne(replayed);
    ExecAfter(s, REPLAY, replayed, [Start(1)], Exec(replayed, [Start(1)]));
  }

  const CUT_OVER := CAPTURE + CANCEL + ([RecordOutcome] + CLOSE)

  lemma {:induction false} LateStart()
    ensures var end := Exec(OneJob(Held), CUT_OVER + (REPLAY + [Start(1)]));
      1 in end.journal.recreated && 1 in end.world.executed
  {
    var closed := OneClosed(HeldAndFailed(), Cancelled);
    CutOverHeldJob();
    StartRecreatedJob();
    ExecAfter(OneJob(Held), CUT_OVER, closed, REPLAY + [Start(1)], Exec(closed, REPLAY + [Start(1)]));
  }

  /** A worker that holds the task all through the reference pass runs a job already recreated. */
  lemma {:induction false} ALateWorkerRunsARecreatedJob() returns (s: State, actions: seq<Action>)
    ensures Untouched(s) && (forall a :: a in actions ==> !a.Delete?)
    ensures 1 in Exec(s, actions).journal.recreated && 1 in Exec(s, actions).world.executed
  {
    s, actions := OneJob(Held), CUT_OVER + (REPLAY + [Start(1)]);
    LateStart();
  }

  lemma {:induction false} CancelHeldJob()
    ensures var s := OneJob(Held).(journal := Journal([Entry(1, Unset)], false, []),
                                   pass := Closing([Entry(1, Unset)], 0, Look));
      Exec(s, [LookAt, DropTask, FailRow])
      == State(World(map[1 := Job(Failed, false)], map[1 := Held], {}), Journal([Entry(1, Cancelling)], false, []),
               Closing([Entry(1, Cancelled)], 0, Record))
  {
    var s := OneJob(Held).(journal := Journal([Entry(1, Unset)], false, []),
                           pass := Closing([Entry(1, Unset)], 0, Look));
    ExecThree(s, LookAt, DropTask, FailRow);
    assert [Entry(1, Unset)][0 := Entry(1, Cancelling)] == [Entry(1, Cancelling)];
    assert Step(s, LookAt).pass == Closing([Entry(1, Cancelling)], 0, Drop);
    assert Step(Step(s, LookAt), DropTask).pass == Closing([Entry(1, Cancelling)], 0, Update);
    assert [Entry(1, Cancelling)][0 := Entry(1, Cancelled)] == [Entry(1, Cancelled)];
    assert map[1 := Job(Waiting, false)][1 := Job(Failed, false)] == map[1 := Job(Failed, false)];
  }

  function RanAndDeleted(): World { World(map[], map[1 := Gone], {1}) }

  lemma {:induction false} RunAndDelete()
    ensures Exec(OneCaptured(OneJob(Held).world), [Start(1), Finish(1, false), Delete(1)])
         == OneCaptured(RanAndDeleted())
  {
    var s := OneCaptured(OneJob(Held).world);
    ExecThree(s, Start(1), Finish(1, false), Delete(1));
    assert Exec(s, [Start(1), Finish(1, false), Delete(1)]).world.jobs == map[];
  }

  lemma {:induction false} CaptureRunDelete()
    ensures Exec(OneJob(Held), CAPTURE + [Start(1), Finish(1, false), Delete(1)]) == OneCaptured(RanAndDeleted())
  {
    CaptureOneJob(Held);
    RunAndDelete();
    ExecAfter(OneJob(Held), CAPTURE, OneCaptured(OneJob(Held).world), [Start(1), Finish(1, false), Delete(1)],
              OneCaptured(RanAndDeleted()));
  }

  lemma {:induction false} LookAndClose()
    ensures Exec(OneCaptured(RanAndDeleted()), [LookAt] + CLOSE) == OneClosed(RanAndDeleted(), Vanished)
  {
    var looked := State(RanAndDeleted(), Journal([Entry(1, Unset)], false, []), Closing([Entry(1, Vanished)], 1, Look));
    ExecOne(OneCaptured(RanAndDeleted()), LookAt);
    assert [Entry(1, Unset)][0 := Entry(1, Vanished)] == [Entry(1, Vanished)];
    FinishOneJob(RanAndDeleted(), [Entry(1, Unset)], Entry(1, Vanished));
    ExecAfter(OneCaptured(RanAndDeleted()), [LookAt], looked, CLOSE, OneClosed(RanAndDeleted(), Vanished));
  }

  lemma {:induction false} CloseAndReplay()
    ensures Exec(OneCaptured(RanAndDeleted()), [LookAt] + CLOSE + REPLAY)
         == State(RanAndDeleted(), Journal([Entry(1, Vanished)], true, [1]), Replaying(1, false))
  {
    LookAndClose();
    ReplayOneJob(RanAndDeleted(), Entry(1, Vanished));
    ExecAfter(OneCaptured(RanAndDeleted()), [LookAt] + CLOSE, OneClosed(RanAndDeleted(), Vanished), REPLAY,
              State(RanAndDeleted(), Journal([Entry(1, Vanished)], true, [1]), Replaying(1, false)));
  }

  /** A row deleted after its job ran reads as vanished, and the job is recreated. */
  lemma {:induction false} ADeletedRowIsRecreatedAfterRunning() returns (s: State, actions: seq<Action>)
    ensures Untouched(s) && 1 in Exec(s, actions).journal.recreated && 1 in Exec(s, actions).world.executed
  {
    s := OneJob(Held);
    var run := [Start(1), Finish(1, false), Delete(1)];
    actions := CAPTURE + run + ([LookAt] + CLOSE + REPLAY);
    CaptureRunDelete();
    CloseAndReplay();
    ExecAfter(s, CAPTURE + run, OneCaptured(RanAndDeleted()), [LookAt] + CLOSE + REPLAY,
              State(RanAndDeleted(), Journal([Entry(1, Vanished)], true, [1]), Replaying(1, false)));
  }
}
