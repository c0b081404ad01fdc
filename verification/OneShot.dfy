/**
 Automatic promotion and the one-shot activation request, over all runs
 (storage/service.py: _accept_source, _promote).
 */
module OneShot {
  import opened Prelude
  import opened Lifecycle
  import opened Effects
  import Serving

  /** A request waits exactly for the revision it was made for, and was never spent. */
  ghost predicate RequestSound(site: Site, history: History) {
    && (history.request.Some? ==>
          history.request.value < |history.requests| && history.request.value !in history.consumed)
    && (site.pending && site.source.Some? ==>
          history.request.Some? && history.requests[history.request.value] == site.source.value)
    && (forall i :: 0 <= i < |history.consumed| ==> history.consumed[i] < |history.requests|)
    && (forall i, k :: 0 <= i < k < |history.consumed| ==> history.consumed[i] != history.consumed[k])
  }

  /** What the lock holder remembers of its row still tells whether that row is ACTIVE, or stored at all. */
  ghost predicate SeenSound(rows: Table, holder: Holder) {
    match holder
    case Storing(_, _, _, _, stage) => stage.Decide? ==> Remembers(rows, stage.id, stage.seen)
    case Accepting(_, id, seen, _, _) => Remembers(rows, id, seen)
    case _ => true
  }

  ghost predicate Remembers(rows: Table, id: nat, seen: Status) {
    id in rows ==> (rows[id].status == Active <==> seen == Active) && (Retryable(rows[id].status) ==> Retryable(seen))
  }

  /** No request stays pending on a source that is being served. */
  ghost predicate NotPendingOnActive(rows: Table, site: Site) {
    site.source.Some? && site.source.value in rows && rows[site.source.value].status == Active ==> !site.pending
  }

  ghost predicate Sound(s: State) {
    && RequestSound(s.site, s.history)
    && SeenSound(s.core.rows, s.holder)
    && NotPendingOnActive(s.core.rows, s.site)
    && (forall id :: id in s.core.rows ==> id < s.core.nextRow)
    && SourceStored(s.core.rows, s.site.source)
  }

  /** The accepted source is a row with a stored tree. */
  ghost predicate SourceStored(rows: Table, source: Option<nat>) {
    source.Some? ==> source.value in rows && Usable(rows[source.value])
  }

  ghost predicate ActiveKept(before: Table, after: Table) {
    after.Keys == before.Keys && forall id :: id in before ==> StandingKept(before[id], after[id])
  }

  /** A row enters or leaves neither ACTIVE nor, once stored, the stored rows. */
  predicate StandingKept(before: Row, after: Row) {
    && after.digest == before.digest && (after.status == Active <==> before.status == Active)
    && (Retryable(after.status) ==> Retryable(before.status))
  }

  ghost predicate RequestKept(s: State, t: State) {
    && t.site.source == s.site.source && t.site.pending == s.site.pending
    && t.history.requests == s.history.requests && t.history.request == s.history.request
    && t.history.consumed == s.history.consumed
  }

  lemma {:induction false} QuietSound(s: State, t: State)
    requires Sound(s) && ActiveKept(s.core.rows, t.core.rows) && t.core.nextRow == s.core.nextRow
    requires RequestKept(s, t) && (t.holder == s.holder || SeenSound(t.core.rows, t.holder))
    ensures Sound(t)
  {
  }

  lemma {:induction false} OpeningSound(s: State, a: Action)
    requires Sound(s) && Enabled(s, a) && Opens(a)
    ensures Sound(Apply(s, a))
  {
    QuietSound(s, Apply(s, a));
  }

  /** A turn of the claim loop remembers the status it read last. */
  lemma {:induction false} ClaimRemembers(s: State)
    requires SeenSound(s.core.rows, s.holder) && s.holder.Storing? && s.holder.stage.Decide?
    ensures SeenSound(Claimed(s).core.rows, Claimed(s).holder) && RequestKept(s, Claimed(s))
  {
  }

  lemma {:induction false} ClaimedSound(s: State)
    requires Sound(s) && Enabled(s, ClaimWrite)
    ensures Sound(Claimed(s))
  {
    ClaimIsQuiet(s);
    ClaimRemembers(s);
    SettledSound(s, Claimed(s));
  }

  lemma {:induction false} SettledSound(s: State, t: State)
    requires Sound(s) && Quiet(s, t) && RequestKept(s, t) && SeenSound(t.core.rows, t.holder)
    ensures Sound(t)
  {
    forall id | id in s.core.rows ensures StandingKept(s.core.rows[id], t.core.rows[id]) {
      assert Settled(s.core.rows[id], t.core.rows[id]);
    }
    QuietSound(s, t);
  }

  lemma {:induction false} AcceptedSound(s: State)
    requires Sound(s) && s.holder.Accepting?
    ensures Sound(Accepted(s))
  {
  }

  lemma {:induction false} KeyWritingSound(s: State, a: Action)
    requires Sound(s) && Enabled(s, a) && WritesKeys(a)
    ensures Sound(Apply(s, a))
  {
    QuietSound(s, Apply(s, a));
  }

  lemma {:induction false} FailedSound(s: State)
    requires Sound(s) && Enabled(s, RecordFailure)
    ensures Sound(FailureRecorded(s))
  {
    QuietSound(s, FailureRecorded(s));
  }

  lemma {:induction false} WriteSettledSound(s: State)
    requires Sound(s) && Enabled(s, SettleWritten)
    ensures Sound(WriteSettled(s))
  {
    QuietSound(s, WriteSettled(s));
  }

  lemma {:induction false} StagingSound(s: State, a: Action)
    requires Sound(s) && Enabled(s, a) && (Begins(a) || Writes(a))
    ensures Sound(Apply(s, a))
  {
    if Opens(a) { OpeningSound(s, a); }
    else if a.ClaimWrite? { ClaimedSound(s); }
    else if a.Accept? { AcceptedSound(s); }
    else if WritesKeys(a) { KeyWritingSound(s, a); }
    else if a.RecordFailure? { FailedSound(s); }
    else { WriteSettledSound(s); }
  }

  lemma {:induction false} RejectedSound(s: State, problems: seq<string>)
    requires Sound(s) && Enabled(s, RejectContent(problems))
    ensures Sound(Apply(s, RejectContent(problems)))
  {
  }

  lemma {:induction false} LookedUpSound(s: State)
    requires Sound(s) && Enabled(s, LookUpRow)
    ensures Sound(LookedUp(s))
  {
  }

  lemma {:induction false} CreatedSound(s: State)
    requires Sound(s) && Enabled(s, CreateRefreshed)
    ensures Sound(RefreshCreated(s))
  {
  }

  lemma {:induction false} RefreshStartSound(s: State)
    requires Sound(s) && Enabled(s, BeginRefresh)
    ensures Sound(StartRefresh(s))
  {
    QuietSound(s, StartRefresh(s));
  }

  lemma {:induction false} RefreshSettledSound(s: State)
    requires Sound(s) && Enabled(s, SettleRefreshed)
    ensures Sound(RefreshSettled(s))
  {
    QuietSound(s, RefreshSettled(s));
  }

  lemma {:induction false} PlainHandlingSound(s: State, a: Action)
    requires Sound(s) && Enabled(s, a) && Handles(a) && !a.BeginRefresh? && !a.SettleRefreshed?
    ensures Sound(Apply(s, a))
  {
    QuietSound(s, Apply(s, a));
  }

  lemma {:induction false} HandlingSound(s: State, a: Action)
    requires Sound(s) && Enabled(s, a) && Handles(a)
    ensures Sound(Apply(s, a))
  {
    if a.BeginRefresh? { RefreshStartSound(s); }
    else if a.SettleRefreshed? { RefreshSettledSound(s); }
    else { PlainHandlingSound(s, a); }
  }

  lemma {:induction false} FileEditingSound(s: State, a: Action)
    requires Sound(s) && Enabled(s, a) && EditsFiles(a)
    ensures Sound(Apply(s, a))
  {
    QuietSound(s, Apply(s, a));
  }

  lemma {:induction false} PlainEditingSound(s: State, a: Action)
    requires Sound(s) && Enabled(s, a) && (a.SaveProject? || a.Tick? || a.SaveScript? || a.PersistDiscovery?)
    ensures Sound(Apply(s, a))
  {
    QuietSound(s, Apply(s, a));
  }

  lemma {:induction false} ClaimingSound(s: State, run: nat, job: nat, id: nat)
    requires Sound(s) && Enabled(s, ClaimValidation(run, job, id))
    ensures Sound(ValidationClaimed(s, run, job, id))
  {
    QuietSound(s, ValidationClaimed(s, run, job, id));
  }

  lemma {:induction false} VerdictSound(s: State, run: nat, v: Verdict)
    requires Sound(s) && run in s.work.runs
    ensures Sound(VerdictReached(s, run, v))
  {
    QuietSound(s, VerdictReached(s, run, v));
  }

  lemma {:induction false} RevertSound(s: State, run: nat)
    requires Sound(s) && run in s.work.runs
    ensures Sound(ClaimReverted(s, run))
  {
    QuietSound(s, ClaimReverted(s, run));
  }

  lemma {:induction false} ValidatingSound(s: State, a: Action)
    requires Sound(s) && Enabled(s, a) && Validates(a)
    ensures Sound(Apply(s, a))
  {
    if a.ClaimValidation? { ClaimingSound(s, a.run, a.job, a.row); }
    else if a.ReachVerdict? { VerdictSound(s, a.run, a.verdict); }
    else if a.RevertClaim? { RevertSound(s, a.run); }
    else { QuietSound(s, WorkerLost(s, a.run)); }
  }

  lemma {:induction false} DeletedSound(s: State, ids: set<nat>)
    requires Sound(s)
    ensures Sound(Deleted(s, ids))
  {
  }

  /** The commit leaves exactly one row ACTIVE-changed on each side, and spends the request. */
  lemma {:induction false} PromotedSound(s: State)
    requires Sound(s) && Serving.Coherent(s) && s.holder.Promoting?
    ensures Sound(Promoted(s))
  {
    if Promotable(s) {
      assert RequestSound(Promoted(s).site, Promoted(s).history);
    }
  }

  lemma {:induction false} DeactivatedSound(s: State, id: nat)
    requires Sound(s) && Enabled(s, Deactivate(id))
    ensures Sound(Deactivated(s, id))
  {
  }

  lemma {:induction false} StepSound(s: State, a: Action)
    requires Sound(s) && Serving.Coherent(s)
    ensures Sound(Step(s, a))
  {
    if Enabled(s, a) {
      if Begins(a) || Writes(a) { StagingSound(s, a); }
      else if a.RejectContent? { RejectedSound(s, a.problems); }
      else if a.LookUpRow? { LookedUpSound(s); }
      else if a.CreateRefreshed? { CreatedSound(s); }
      else if Handles(a) { HandlingSound(s, a); }
      else if Validates(a) { ValidatingSound(s, a); }
      else if EditsFiles(a) { FileEditingSound(s, a); }
      else if Edits(a) || a.SaveScript? { PlainEditingSound(s, a); }
      else if a.DeleteRows? { DeletedSound(s, a.ids); }
      else if a.Deactivate? { DeactivatedSound(s, a.row); }
      else { PromotedSound(s); }
    }
  }

  lemma {:induction false} RunSound(s: State, actions: seq<Action>)
    requires Sound(s) && Serving.Coherent(s)
    ensures Sound(Exec(s, actions)) && Serving.Coherent(Exec(s, actions))
  {
    if actions != [] {
      RunSound(s, actions[..|actions| - 1]);
      StepSound(Exec(s, actions[..|actions| - 1]), actions[|actions| - 1]);
      Serving.StepCoherent(Exec(s, actions[..|actions| - 1]), actions[|actions| - 1]);
    }
  }

  // ----- The theorems over all runs ----------------------------------------------------------------

  /**
   A pending request on an accepted source was made for that very revision and was never spent,
   it never waits on a source being served, and no request is spent twice.
   */
  lemma {:induction false} RequestsAreNeverTransferredOrReused(s: State, actions: seq<Action>)
    requires Fresh(s)
    ensures var t := Exec(s, actions); var h := t.history;
      && (t.site.pending && t.site.source.Some? ==>
            && h.request.Some? && h.request.value < |h.requests|
            && h.requests[h.request.value] == t.site.source.value
            && h.request.value !in h.consumed)
      && NotPendingOnActive(t.core.rows, t.site)
      && (forall i, k :: 0 <= i < k < |h.consumed| ==> h.consumed[i] != h.consumed[k])
  {
    RunSound(s, actions);
  }

  /**
   In every reachable state: accepting makes the row the source, and leaves a request pending exactly
   when the row is not being served and either it is asked for now or it was the source and its
   request still waits. What is asked for now is logged under the row.
   */
  lemma {:induction false} AcceptedRequestsWait(origin: State, earlier: seq<Action>)
    requires Fresh(origin) && Exec(origin, earlier).holder.Accepting?
    ensures var s := Exec(origin, earlier); var h := s.holder; var t := Step(s, Accept);
      if h.row in s.core.rows && s.core.rows[h.row].digest.Some? && h.seen !in {Staging, StorageFailed} then
        && t.site.source == Some(h.row) && t.site.active == s.site.active
        && (t.site.pending <==> s.core.rows[h.row].status != Active
                                && (h.once || (s.site.source == Some(h.row) && s.site.pending)))
        && (h.once && s.core.rows[h.row].status != Active ==>
              t.history.request == Some(|s.history.requests|) && t.history.requests == s.history.requests + [h.row])
        && (!(h.once && s.core.rows[h.row].status != Active) ==> t.history.requests == s.history.requests)
        && (h.upload.Some? ==> t.history.uploads == s.history.uploads + [h.upload.value])
      else t.site == s.site && t.history == s.history
  {
    RunSound(origin, earlier);
    var s := Exec(origin, earlier);
    assert Step(s, Accept) == Accepted(s);
  }

  /** A pending request ends only by a promotion of the source, or by a source accepted in its place. */
  lemma {:induction false} PendingUntilServed(s: State, a: Action)
    requires s.site.pending && !Step(s, a).site.pending
    ensures var t := Step(s, a);
      || (a.CommitPromotion? && t.site.active.Some? && t.site.active == s.site.source)
      || (a.Accept? && s.holder.Accepting? && t.site.source == Some(s.holder.row)
          && (s.site.source != Some(s.holder.row) || s.holder.seen == Active))
  {
  }

  /** In every reachable state the accepted source, if there is one, is a row that is stored. */
  lemma {:induction false} AcceptedSourceIsStored(s: State, actions: seq<Action>)
    requires Fresh(s)
    ensures SourceStored(Exec(s, actions).core.rows, Exec(s, actions).site.source)
  {
    RunSound(s, actions);
  }

  /** A request is spent only by a promotion that serves the revision it was made for. */
  lemma {:induction false} RequestsServeTheirOwnRevision(s: State, earlier: seq<Action>, a: Action)
    requires Fresh(s)
    ensures var t := Exec(s, earlier); var u := Step(t, a);
      u.history.consumed != t.history.consumed ==>
        && t.history.request.Some?
        && u.history.consumed == t.history.consumed + [t.history.request.value]
        && t.history.request.value < |t.history.requests|
        && u.site.active == Some(t.history.requests[t.history.request.value])
        && !u.site.pending
  {
    RunSound(s, earlier);
    if !a.CommitPromotion? { OnlyCommitsConsume(Exec(s, earlier), a); }
  }

  lemma {:induction false} OnlyCommitsConsume(s: State, a: Action)
    requires !a.CommitPromotion?
    ensures Step(s, a).history.consumed == s.history.consumed
  {
    if Quietly(a) { QuietSteps(s, a); }
    else if Inserts(a) { InsertingJoins(s, a); }
    else { LoudConsumption(s, a); }
  }

  lemma {:induction false} LoudConsumption(s: State, a: Action)
    requires !a.CommitPromotion? && !Quietly(a) && !Inserts(a)
    ensures Step(s, a).history.consumed == s.history.consumed
  {
  }

  /** What a step serves is the source accepted in a state, frozen under its declarations, and asked for. */
  ghost predicate ServesCurrent(s: State, active: Option<nat>) {
    && active.Some? && active == s.site.source && active.value in s.core.rows
    && s.core.rows[active.value].selection == Selected(s.work.files)
    && (s.site.pending || s.site.automatic)
  }

  /**
   Over all runs, a step taken while an automatic promotion holds the project that points it
   anywhere new points it at the source accepted in that very state, frozen under exactly the
   declarations enabled then, with a request pending or the automatic policy in force; that
   revision is then the one ACTIVE row and its recorded Scripts are what is published. The only
   other move is the pointer clearing because the revision served is deleted.
   */
  lemma {:induction false} AutomaticPromotionIsCurrent(origin: State, earlier: seq<Action>, a: Action)
    requires Fresh(origin)
    ensures var s := Exec(origin, earlier); var t := Step(s, a);
      s.holder.Promoting? && s.holder.automatic && t.site.active != s.site.active ==>
        && (t.site.active.None? ==> a.DeleteRows? && s.site.active.value in a.ids)
        && (t.site.active.Some? ==> ServesCurrent(s, t.site.active) && Serving.Coherent(t))
  {
    var s := Exec(origin, earlier);
    RunSound(origin, earlier);
    Serving.StepCoherent(s, a);
    if s.holder.Promoting? && s.holder.automatic {
      if Quietly(a) { QuietSteps(s, a); }
      else if Inserts(a) { InsertingJoins(s, a); }
      else { LoudWhilePromoting(s, a); }
    }
  }

  lemma {:induction false} LoudWhilePromoting(s: State, a: Action)
    requires s.holder.Promoting? && s.holder.automatic && !Quietly(a) && !Inserts(a)
    ensures var t := Step(s, a);
      t.site.active == s.site.active
      || (a.DeleteRows? && t.site.active.None? && s.site.active.value in a.ids)
      || (a.CommitPromotion? && ServesCurrent(s, t.site.active))
  {
  }
}
