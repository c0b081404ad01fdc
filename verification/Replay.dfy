/** One pass recreating the schedules the cutover captured (netbox_scripts/migration/references.py). */
module Replay {
  import opened Prelude
  import Cutover

  /** When a captured job was due. A stored text that does not parse counts as passed. */
  datatype Due = NotScheduled | Unreadable | At(time: int)

  /** One captured job: its entry in the cutover's journal, and what was recorded for its replay. */
  datatype Entry = Entry(
    captured: Cutover.Entry,
    isScript: bool,
    dropped: seq<string>,
    legacyScript: nat,
    due: Due,
    interval: Option<nat>,
    owner: Option<nat>)

  datatype Owner = Owner(active: bool, mayRun: set<nat>)

  /** What enqueueing the replacement comes to: its new job, a script that cannot run, or input it rejects. */
  datatype Attempt = Enqueued(job: nat) | CannotLoad | InvalidInput

  /**
   Everything a pass reads beside the journal. changed holds the jobs whose row left the state the
   cutover put it in.
   */
  datatype Site = Site(
    resolved: map<nat, nat>,
    mapped: set<nat>,
    owners: map<nat, Owner>,
    changed: set<nat>,
    now: int,
    attempts: map<nat, Attempt>)

  datatype Start = AtOnce | Scheduled(time: int) | Unschedulable

  /** _replay_schedule: the start a schedule is replayed with, and whether its phase moved. */
  function ReplaySchedule(e: Entry, now: int): (Start, bool) {
    if e.due.NotScheduled? then (AtOnce, false)
    else if e.due.At? && e.due.time > now then (Scheduled(e.due.time), false)
    else if e.interval.Some? && e.interval.value != 0 then (AtOnce, true)
    else (Unschedulable, false)
  }

  /** A replay keeps a future start exactly, and what was due in the past runs unasked only if it recurs. */
  lemma {:induction false} ReplayIsNeverUnasked(e: Entry, now: int)
    ensures var (start, shifted) := ReplaySchedule(e, now);
      && (start.Scheduled? ==> e.due == At(start.time) && start.time > now)
      && (start == AtOnce <==> e.due.NotScheduled? || shifted)
      && (shifted ==> e.interval.Some? && e.interval.value > 0)
      && (start == Unschedulable <==> !e.due.NotScheduled? && !(e.due.At? && e.due.time > now)
                                      && (e.interval == None || e.interval.value == 0))
  {
  }

  // ----- What becomes of one entry -------------------------------------------------------------------

  datatype Outcome = Already | Skipped(outstanding: bool) | Recreated(job: nat, shifted: bool)

  /** A worker took it, or may have: it is never recreated. */
  predicate WasTaken(site: Site, e: Entry) {
    || Cutover.Marked(e.captured.cancellation)
    || (e.captured.cancellation == Cutover.Cancelled && e.captured.job in site.changed)
  }

  /** Its owner exists and is active, or it never had one. */
  predicate OwnerStands(site: Site, e: Entry) {
    e.owner.Some? ==> e.owner.value in site.owners && site.owners[e.owner.value].active
  }

  predicate OwnerMayRun(site: Site, e: Entry, script: nat)
    requires OwnerStands(site, e)
  {
    e.owner.Some? ==> script in site.owners[e.owner.value].mayRun
  }

  predicate Replayable(site: Site, e: Entry) {
    !WasTaken(site, e) && e.isScript && e.dropped == []
  }

  predicate Startable(site: Site, e: Entry) {
    ReplaySchedule(e, site.now).0 != Unschedulable && OwnerStands(site, e)
  }

  function AttemptOf(site: Site, e: Entry): Attempt {
    if e.captured.job in site.attempts then site.attempts[e.captured.job] else CannotLoad
  }

  /** Everything a schedule needs to come back. */
  predicate Eligible(site: Site, e: Entry) {
    && Replayable(site, e)
    && e.legacyScript in site.resolved
    && Startable(site, e)
    && OwnerMayRun(site, e, site.resolved[e.legacyScript])
    && AttemptOf(site, e).Enqueued?
  }

  /** What an operator can still repair: a mapped script to resolve, a grant to give, or a script to make loadable. */
  predicate Repairable(site: Site, e: Entry) {
    Replayable(site, e)
    && if e.legacyScript !in site.resolved then e.legacyScript in site.mapped
       else Startable(site, e)
            && (!OwnerMayRun(site, e, site.resolved[e.legacyScript]) || AttemptOf(site, e) == CannotLoad)
  }

  function OutcomeOf(site: Site, recreated: map<nat, nat>, e: Entry): Outcome {
    if e.captured.job in recreated then Already
    else if Eligible(site, e) then Recreated(AttemptOf(site, e).job, ReplaySchedule(e, site.now).1)
    else Skipped(Repairable(site, e))
  }

  // ----- A whole pass -----------------------------------------------------------------------------------

  datatype Counts = Counts(recreated: nat, skipped: nat, shifted: nat, outstanding: nat)

  const NOTHING := Counts(0, 0, 0, 0)

  function Counted(c: Counts, o: Outcome): Counts {
    match o
    case Already => c
    case Skipped(outstanding) =>
      c.(skipped := c.skipped + 1, outstanding := c.outstanding + if outstanding then 1 else 0)
    case Recreated(_, shifted) => c.(recreated := c.recreated + 1, shifted := c.shifted + if shifted then 1 else 0)
  }

  /** The journal map one entry leaves. */
  function Mapped(recreated: map<nat, nat>, e: Entry, o: Outcome): map<nat, nat> {
    if o.Recreated? then recreated[e.captured.job := o.job] else recreated
  }

  function Replayed(site: Site, recreated: map<nat, nat>, entries: seq<Entry>): (map<nat, nat>, Counts) {
    if entries == [] then (recreated, NOTHING)
    else
      var n := |entries| - 1;
      var (before, counts) := Replayed(site, recreated, entries[..n]);
      var o := OutcomeOf(site, before, entries[n]);
      (Mapped(before, entries[n], o), Counted(counts, o))
  }

  /** The journal entries behind some schedules. */
  function Captured(entries: seq<Entry>): (captured: seq<Cutover.Entry>)
    ensures |captured| == |entries| && forall k :: 0 <= k < |entries| ==> captured[k] == entries[k].captured
  {
    seq(|entries|, k requires 0 <= k < |entries| => entries[k].captured)
  }

  ghost predicate DistinctJobs(entries: seq<Entry>) { Cutover.DistinctJobs(Captured(entries)) }

  /** The captured jobs a pass starts with still to deal with. */
  ghost function Open(recreated: map<nat, nat>, entries: seq<Entry>): set<nat> {
    set k | 0 <= k < |entries| && entries[k].captured.job !in recreated :: entries[k].captured.job
  }

  ghost function NewlyRecreated(site: Site, recreated: map<nat, nat>, entries: seq<Entry>): set<nat> {
    set k | 0 <= k < |entries| && entries[k].captured.job !in recreated && Eligible(site, entries[k])
          :: entries[k].captured.job
  }

  ghost function Outstanding(site: Site, recreated: map<nat, nat>, entries: seq<Entry>): set<nat> {
    set k | 0 <= k < |entries| && entries[k].captured.job !in recreated && !Eligible(site, entries[k])
            && Repairable(site, entries[k]) :: entries[k].captured.job
  }

  lemma {:induction false} OpenNext(site: Site, recreated: map<nat, nat>, entries: seq<Entry>)
    requires entries != [] && DistinctJobs(entries)
    ensures var n := |entries| - 1; var e := entries[n];
      && e.captured.job !in Open(recreated, entries[..n])
      && Open(recreated, entries)
         == Open(recreated, entries[..n]) + (if e.captured.job in recreated then {} else {e.captured.job})
      && NewlyRecreated(site, recreated, entries) == NewlyRecreated(site, recreated, entries[..n])
         + (if e.captured.job !in recreated && Eligible(site, e) then {e.captured.job} else {})
      && Outstanding(site, recreated, entries) == Outstanding(site, recreated, entries[..n])
         + (if e.captured.job !in recreated && !Eligible(site, e) && Repairable(site, e) then {e.captured.job} else {})
  {
    var n := |entries| - 1;
    assert forall k :: 0 <= k < n ==> entries[..n][k] == entries[k];
  }

  /** What was recreated earlier stands, and exactly the eligible ones join it. */
  lemma {:induction false} ExactlyTheEligible(site: Site, recreated: map<nat, nat>, entries: seq<Entry>)
    requires DistinctJobs(entries)
    ensures var after := Replayed(site, recreated, entries).0;
      && after.Keys == recreated.Keys + NewlyRecreated(site, recreated, entries)
      && (forall j :: j in recreated ==> after[j] == recreated[j])
  {
    if entries != [] {
      var n := |entries| - 1;
      ExactlyTheEligible(site, recreated, entries[..n]);
      OpenNext(site, recreated, entries);
      NewlyIsOpen(site, recreated, entries[..n]);
    }
  }

  lemma {:induction false} NewlyIsOpen(site: Site, recreated: map<nat, nat>, entries: seq<Entry>)
    ensures NewlyRecreated(site, recreated, entries) <= Open(recreated, entries)
    ensures Outstanding(site, recreated, entries) <= Open(recreated, entries)
  {
  }

  /** An entry's outcome does not depend on the entries before it. */
  lemma {:induction false} OutcomeStands(site: Site, recreated: map<nat, nat>, entries: seq<Entry>)
    requires entries != [] && DistinctJobs(entries)
    ensures var n := |entries| - 1;
      OutcomeOf(site, Replayed(site, recreated, entries[..n]).0, entries[n]) == OutcomeOf(site, recreated, entries[n])
  {
    var n := |entries| - 1;
    ExactlyTheEligible(site, recreated, entries[..n]);
    NewlyIsOpen(site, recreated, entries[..n]);
    OpenNext(site, recreated, entries);
  }

  function OneIf(j: nat, b: bool): set<nat> { if b then {j} else {} }

  lemma {:induction false} SizeNext(s: set<nat>, j: nat, b: bool)
    requires j !in s
    ensures |s + OneIf(j, b)| == |s| + if b then 1 else 0
  {
  }

  lemma {:induction false} SizesNext(site: Site, recreated: map<nat, nat>, entries: seq<Entry>)
    requires entries != [] && DistinctJobs(entries)
    ensures var n := |entries| - 1; var o := OutcomeOf(site, recreated, entries[n]);
      && |Open(recreated, entries)| == |Open(recreated, entries[..n])| + (if o == Already then 0 else 1)
      && |NewlyRecreated(site, recreated, entries)|
         == |NewlyRecreated(site, recreated, entries[..n])| + (if o.Recreated? then 1 else 0)
      && |Outstanding(site, recreated, entries)|
         == |Outstanding(site, recreated, entries[..n])| + (if o == Skipped(true) then 1 else 0)
  {
    var n := |entries| - 1;
    var e := entries[n];
    OpenNext(site, recreated, entries);
    NewlyIsOpen(site, recreated, entries[..n]);
    SizeNext(Open(recreated, entries[..n]), e.captured.job, e.captured.job !in recreated);
    SizeNext(NewlyRecreated(site, recreated, entries[..n]), e.captured.job,
             e.captured.job !in recreated && Eligible(site, e));
    SizeNext(Outstanding(site, recreated, entries[..n]), e.captured.job,
             e.captured.job !in recreated && !Eligible(site, e) && Repairable(site, e));
  }

  /** Every captured job that was not recreated before is counted exactly once, as recreated or as skipped. */
  lemma {:induction false} EveryEntryIsCountedOnce(site: Site, recreated: map<nat, nat>, entries: seq<Entry>)
    requires DistinctJobs(entries)
    ensures var counts := Replayed(site, recreated, entries).1;
      && counts.recreated + counts.skipped == |Open(recreated, entries)|
      && counts.recreated == |NewlyRecreated(site, recreated, entries)|
      && counts.outstanding == |Outstanding(site, recreated, entries)|
  {
    if entries != [] {
      var n := |entries| - 1;
      EveryEntryIsCountedOnce(site, recreated, entries[..n]);
      OutcomeStands(site, recreated, entries);
      SizesNext(site, recreated, entries);
      CountsNext(site, recreated, entries);
    }
  }

  lemma {:induction false} CountsNext(site: Site, recreated: map<nat, nat>, entries: seq<Entry>)
    requires entries != []
    ensures var n := |entries| - 1; var before := Replayed(site, recreated, entries[..n]);
      Replayed(site, recreated, entries).1 == Counted(before.1, OutcomeOf(site, before.0, entries[n]))
  {
  }

  lemma {:induction false} NothingNewlyEligible(site: Site, recreated: map<nat, nat>, entries: seq<Entry>)
    requires DistinctJobs(entries)
    ensures NewlyRecreated(site, Replayed(site, recreated, entries).0, entries) == {}
  {
    ExactlyTheEligible(site, recreated, entries);
    forall k | 0 <= k < |entries| && Eligible(site, entries[k]) && entries[k].captured.job !in recreated
      ensures entries[k].captured.job in NewlyRecreated(site, recreated, entries)
    {
    }
  }

  /** A pass over the same journal and site, run again, recreates nothing more. */
  lemma {:induction false} SecondPassRecreatesNothing(site: Site, recreated: map<nat, nat>, entries: seq<Entry>)
    requires DistinctJobs(entries)
    ensures var after := Replayed(site, recreated, entries).0;
      Replayed(site, after, entries).0 == after && Replayed(site, after, entries).1.recreated == 0
  {
    var after := Replayed(site, recreated, entries).0;
    NothingNewlyEligible(site, recreated, entries);
    ExactlyTheEligible(site, after, entries);
    EveryEntryIsCountedOnce(site, after, entries);
  }

  // ----- Eligibility, on what is recorded alone -----------------------------------------------------------

  /** No worker took it, it ran a script, and all its input was recorded. */
  ghost predicate Clear(site: Site, e: Entry) {
    && e.captured.cancellation !in {Cutover.Executed, Cutover.LeftRunning}
    && (e.captured.cancellation == Cutover.Cancelled ==> e.captured.job !in site.changed)
    && e.isScript && |e.dropped| == 0
  }

  /** Due in the future, never given a time, or recurring. */
  ghost predicate StillDue(site: Site, e: Entry) {
    e.due == NotScheduled || (e.due.At? && e.due.time > site.now) || (e.interval.Some? && e.interval.value > 0)
  }

  /** Its owner, if it has one, has an active account. */
  ghost predicate Owned(site: Site, e: Entry) {
    e.owner == None || (e.owner.value in site.owners && site.owners[e.owner.value].active)
  }

  ghost predicate Granted(site: Site, e: Entry, script: nat) {
    e.owner == None || (e.owner.value in site.owners && script in site.owners[e.owner.value].mayRun)
  }

  /** The job that replaces it, when enqueueing came to that. */
  ghost predicate Replaces(site: Site, e: Entry, job: nat) {
    e.captured.job in site.attempts && site.attempts[e.captured.job] == Enqueued(job)
  }

  /** Everything a replay takes. */
  ghost predicate Deserves(site: Site, e: Entry, job: nat) {
    && Clear(site, e) && StillDue(site, e) && Owned(site, e) && Replaces(site, e, job)
    && e.legacyScript in site.resolved && Granted(site, e, site.resolved[e.legacyScript])
  }

  /**
   What keeps a pass from being complete: a mapped script to resolve, a grant to give, or a script
   that cannot run.
   */
  ghost predicate Blocked(site: Site, e: Entry) {
    && Clear(site, e)
    && (if e.legacyScript !in site.resolved then e.legacyScript in site.mapped
        else StillDue(site, e) && Owned(site, e)
             && (Granted(site, e, site.resolved[e.legacyScript]) ==>
                   e.captured.job !in site.attempts || site.attempts[e.captured.job] == CannotLoad))
  }

  lemma {:induction false} StillDueChecked(site: Site, e: Entry)
    ensures StillDue(site, e) <==> ReplaySchedule(e, site.now).0 != Unschedulable
  {
  }

  lemma {:induction false} EligibleChecked(site: Site, e: Entry)
    ensures Eligible(site, e) <==> exists job :: Deserves(site, e, job)
    ensures Eligible(site, e) ==> Deserves(site, e, AttemptOf(site, e).job)
    ensures !Eligible(site, e) && Repairable(site, e) <==> Blocked(site, e)
  {
    StillDueChecked(site, e);
    if Eligible(site, e) {
      assert Deserves(site, e, AttemptOf(site, e).job);
    }
  }

  /** An entry's job is in the journal after a pass exactly when it was before, or it deserves its replacement. */
  lemma {:induction false} RecreatedExactly(site: Site, recreated: map<nat, nat>, entries: seq<Entry>, k: nat)
    requires DistinctJobs(entries) && k < |entries|
    ensures var e, after := entries[k], Replayed(site, recreated, entries).0;
      && (e.captured.job in after <==>
            e.captured.job in recreated || exists job :: Deserves(site, e, job))
      && (e.captured.job !in recreated ==> forall job :: Deserves(site, e, job) ==> after[e.captured.job] == job)
    decreases |entries|
  {
    ExactlyTheEligible(site, recreated, entries);
    EligibleChecked(site, entries[k]);
    if k < |entries| - 1 {
      LaterEntriesLeave(site, recreated, entries, k);
      assert entries[..|entries| - 1][k] == entries[k];
      RecreatedExactly(site, recreated, entries[..|entries| - 1], k);
    } else {
      OutcomeStands(site, recreated, entries);
    }
  }

  lemma {:induction false} LaterEntriesLeave(site: Site, recreated: map<nat, nat>, entries: seq<Entry>, k: nat)
    requires DistinctJobs(entries) && k < |entries| - 1
    ensures var before := Replayed(site, recreated, entries[..|entries| - 1]).0;
      var after := Replayed(site, recreated, entries).0;
      var j := entries[k].captured.job;
      (j in after <==> j in before) && (j in after ==> after[j] == before[j])
    ensures DistinctJobs(entries[..|entries| - 1])
  {
    var n := |entries| - 1;
    assert Captured(entries)[k] == entries[k].captured && Captured(entries)[n] == entries[n].captured;
  }

  /** Nothing else enters the journal. */
  lemma {:induction false} OnlyEntriesAreRecreated(site: Site, recreated: map<nat, nat>, entries: seq<Entry>, j: nat)
    requires DistinctJobs(entries) && j in Replayed(site, recreated, entries).0
    ensures j in recreated || exists k :: 0 <= k < |entries| && entries[k].captured.job == j
  {
    ExactlyTheEligible(site, recreated, entries);
  }

  /** The outstanding count, and the shifted one, are of exactly the entries they speak of. */
  lemma {:induction false} CountsAreExact(site: Site, recreated: map<nat, nat>, entries: seq<Entry>)
    requires DistinctJobs(entries)
    ensures var counts := Replayed(site, recreated, entries).1;
      && counts.outstanding == |BlockedJobs(site, recreated, entries)|
      && counts.shifted == |ShiftedJobs(site, recreated, entries)|
  {
    EveryEntryIsCountedOnce(site, recreated, entries);
    forall e ensures !Eligible(site, e) && Repairable(site, e) <==> Blocked(site, e) {
      EligibleChecked(site, e);
    }
    assert BlockedJobs(site, recreated, entries) == Outstanding(site, recreated, entries);
    ShiftedAreCounted(site, recreated, entries);
  }

  ghost function BlockedJobs(site: Site, recreated: map<nat, nat>, entries: seq<Entry>): set<nat> {
    set k | 0 <= k < |entries| && entries[k].captured.job !in recreated && Blocked(site, entries[k])
          :: entries[k].captured.job
  }

  /** Recreated to run at once, although it was due at a time now past: it recurs. */
  ghost predicate Shifts(site: Site, e: Entry) {
    && (exists job :: Deserves(site, e, job))
    && e.due != NotScheduled && (e.due.At? ==> e.due.time <= site.now)
  }

  ghost function ShiftedJobs(site: Site, recreated: map<nat, nat>, entries: seq<Entry>): set<nat> {
    set k | 0 <= k < |entries| && entries[k].captured.job !in recreated && Shifts(site, entries[k])
          :: entries[k].captured.job
  }

  lemma {:induction false} ShiftsChecked(site: Site, e: Entry)
    ensures Shifts(site, e) <==> Eligible(site, e) && ReplaySchedule(e, site.now).1
  {
    EligibleChecked(site, e);
  }

  lemma {:induction false} ShiftedNext(site: Site, recreated: map<nat, nat>, entries: seq<Entry>)
    requires entries != [] && DistinctJobs(entries)
    ensures var n := |entries| - 1; var e := entries[n];
      && e.captured.job !in ShiftedJobs(site, recreated, entries[..n])
      && ShiftedJobs(site, recreated, entries) == ShiftedJobs(site, recreated, entries[..n])
           + OneIf(e.captured.job, e.captured.job !in recreated && Shifts(site, e))
  {
    var n := |entries| - 1;
    assert forall k :: 0 <= k < n ==> entries[..n][k] == entries[k];
    assert forall k :: 0 <= k < n ==> Captured(entries)[k].job != Captured(entries)[n].job;
  }

  lemma {:induction false} ShiftedAreCounted(site: Site, recreated: map<nat, nat>, entries: seq<Entry>)
    requires DistinctJobs(entries)
    ensures Replayed(site, recreated, entries).1.shifted == |ShiftedJobs(site, recreated, entries)|
  {
    if entries != [] {
      var n := |entries| - 1;
      PrefixIsDistinct(entries);
      ShiftedAreCounted(site, recreated, entries[..n]);
      ShiftCountNext(site, recreated, entries);
      ShiftedNext(site, recreated, entries);
      SizeNext(ShiftedJobs(site, recreated, entries[..n]), entries[n].captured.job,
               entries[n].captured.job !in recreated && Shifts(site, entries[n]));
    }
  }

  lemma {:induction false} PrefixIsDistinct(entries: seq<Entry>)
    requires entries != [] && DistinctJobs(entries)
    ensures DistinctJobs(entries[..|entries| - 1])
  {
  }

  lemma {:induction false} ShiftCountNext(site: Site, recreated: map<nat, nat>, entries: seq<Entry>)
    requires entries != [] && DistinctJobs(entries)
    ensures var n := |entries| - 1; var e := entries[n];
      Replayed(site, recreated, entries).1.shifted
      == Replayed(site, recreated, entries[..n]).1.shifted
         + if e.captured.job !in recreated && Shifts(site, e) then 1 else 0
  {
    OutcomeStands(site, recreated, entries);
    CountsNext(site, recreated, entries);
    ShiftsChecked(site, entries[|entries| - 1]);
  }

  // ----- A pass over a completed cutover ------------------------------------------------------------------

  /** The schedules of a sound journal are ones a pass may take: no job is named twice. */
  lemma {:induction false} CompletedCutoverIsALegalStart(s: Cutover.State, entries: seq<Entry>)
    requires Cutover.Sound(s) && Captured(entries) == s.journal.schedules
    ensures DistinctJobs(entries)
  {
  }

  /** A pass reads the journal and the rows of a state. */
  ghost predicate Reads(s: Cutover.State, site: Site, recreated: map<nat, nat>) {
    && (forall j :: j in recreated <==> j in s.journal.recreated)
    && (forall j :: j in site.changed <==> j in s.world.jobs && !Cutover.OwnFailure(s.world, j))
  }

  /**
   What a whole pass recreates from a completed cutover, while no worker holds a captured task, is
   only what no worker ever ran or can run.
   */
  lemma {:induction false} OnlyWhatNeverRuns(s: Cutover.State, site: Site, recreated: map<nat, nat>,
                                             entries: seq<Entry>, j: nat)
    requires Cutover.Sound(s) && s.journal.done && Captured(entries) == s.journal.schedules
    requires Reads(s, site, recreated) && Cutover.TaskOf(s.world, j) != Cutover.Held
    requires j in NewlyRecreated(site, recreated, entries)
    ensures Cutover.NeverRuns(s.world, j)
  {
    var k :| 0 <= k < |entries| && entries[k].captured.job == j && j !in recreated && Eligible(site, entries[k]);
    assert Captured(entries)[k] == entries[k].captured;
    Cutover.ReadyToReplay(s, k);
  }

  /** The part of a migration run the pass updates. */
  class MigrationRun {
    const schedules: seq<Entry>
    var recreated: map<nat, nat>
    var completed: Option<Counts>

    constructor (schedules: seq<Entry>)
      ensures this.schedules == schedules && recreated == map[] && completed == None
    {
      this.schedules, recreated, completed := schedules, map[], None;
    }

    /** _recreate: the new job and the journal naming it land together, or neither does. */
    method Recreate(site: Site, e: Entry) returns (attempt: Attempt)
      modifies this`recreated
      ensures attempt == AttemptOf(site, e)
      ensures recreated == if attempt.Enqueued? then old(recreated)[e.captured.job := attempt.job] else old(recreated)
    {
      attempt := AttemptOf(site, e);
      if attempt.Enqueued? {
        recreated := recreated[e.captured.job := attempt.job];
      }
    }

    /** One entry of the loop, through its refusals in order. */
    method ReplayEntry(site: Site, e: Entry, counts: Counts) returns (after: Counts)
      requires e.captured.job !in recreated
      modifies this`recreated
      ensures after == Counted(counts, OutcomeOf(site, old(recreated), e))
      ensures recreated == Mapped(old(recreated), e, OutcomeOf(site, old(recreated), e))
    {
      after := counts.(skipped := counts.skipped + 1);
      var cancellation := e.captured.cancellation;
      if cancellation == Cutover.Executed || cancellation == Cutover.LeftRunning {
        return;
      }
      if cancellation == Cutover.Cancelled && e.captured.job in site.changed {
        return;
      }
      if !e.isScript {
        return;
      }
      if e.dropped != [] {
        return;
      }
      if e.legacyScript !in site.resolved {
        if e.legacyScript in site.mapped {
          after := after.(outstanding := after.outstanding + 1);
        }
        return;
      }
      var script := site.resolved[e.legacyScript];
      var (start, shifted) := ReplaySchedule(e, site.now);
      if start == Unschedulable {
        return;
      }
      if e.owner.Some? && e.owner.value !in site.owners {
        return;
      }
      if e.owner.Some? && !site.owners[e.owner.value].active {
        return;
      }
      if e.owner.Some? && script !in site.owners[e.owner.value].mayRun {
        after := after.(outstanding := after.outstanding + 1);
        return;
      }
      var attempt := Recreate(site, e);
      if attempt.CannotLoad? {
        after := after.(outstanding := after.outstanding + 1);
        return;
      }
      if attempt.InvalidInput? {
        return;
      }
      after := counts.(recreated := counts.recreated + 1, shifted := counts.shifted + if shifted then 1 else 0);
    }

    /** recreate_schedules: a completed step is repeated by its recorded counts alone. */
    method RecreateSchedules(site: Site) returns (counts: Counts)
      modifies this
      ensures old(completed).Some? ==> counts == old(completed).value && recreated == old(recreated)
                                       && completed == old(completed)
      ensures old(completed).None? ==> (recreated, counts) == Replayed(site, old(recreated), schedules)
      ensures old(completed).None? ==> completed == if counts.outstanding == 0 then Some(counts) else None
    {
      if completed.Some? {
        return completed.value;
      }
      counts := NOTHING;
      for i := 0 to |schedules|
        invariant completed == None && (recreated, counts) == Replayed(site, old(recreated), schedules[..i])
      {
        assert schedules[..i + 1][..i] == schedules[..i];
        if schedules[i].captured.job in recreated {
          continue;
        }
        counts := ReplayEntry(site, schedules[i], counts);
      }
      assert schedules[..|schedules|] == schedules;
      if counts.outstanding == 0 {
        completed := Some(counts);
      }
    }
  }
}
