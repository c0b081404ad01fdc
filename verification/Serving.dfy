/**
 What a project serves, over all runs: the active pointer, the one ACTIVE revision and the
 unretired Script rows always agree.
 */
module Serving {
  import opened Prelude
  import opened ScriptSync
  import opened Lifecycle
  import opened Effects

  /** The active revision field names a revision exactly when it is the ACTIVE one. */
  ghost predicate PointerSound(rows: Table, next: nat, active: Option<nat>) {
    && (forall id :: id in rows ==> id < next)
    && (active.Some? ==> active.value in rows)
    && (forall id :: id in rows ==> (rows[id].status == Active <==> active == Some(id)))
  }

  /** While something is served, the unretired rows are exactly its recorded Scripts. */
  ghost predicate RowsServed(rows: Table, active: Option<nat>, scripts: Rows) {
    active.Some? && active.value in rows ==> Publishes(scripts, rows[active.value].published, active.value)
  }

  ghost predicate Coherent(s: State) {
    && PointerSound(s.core.rows, s.core.nextRow, s.site.active)
    && RowsServed(s.core.rows, s.site.active, s.site.scripts)
  }

  /** No row enters or leaves ACTIVE, and an ACTIVE row keeps its recorded Scripts. */
  ghost predicate ServingUntouched(before: Table, after: Table) {
    && after.Keys == before.Keys
    && (forall id :: id in before ==>
          (after[id].status == Active <==> before[id].status == Active)
          && (before[id].status == Active ==> after[id].published == before[id].published))
  }

  lemma {:induction false} QuietCoherent(s: State, t: State)
    requires Coherent(s) && t.core.nextRow == s.core.nextRow
    requires ServingUntouched(s.core.rows, t.core.rows)
    requires t.site.active == s.site.active && t.site.scripts == s.site.scripts
    ensures Coherent(t)
  {
  }

  lemma {:induction false} QuietOrJoinedCoherent(s: State, t: State)
    requires Coherent(s) && QuietOrJoins(s, t)
    ensures Coherent(t)
  {
    if Quiet(s, t) {
      forall id | id in s.core.rows ensures t.core.rows[id].status == Active <==> s.core.rows[id].status == Active {
        assert Settled(s.core.rows[id], t.core.rows[id]);
      }
      QuietCoherent(s, t);
    } else {
      JoinedCoherent(s, t, t.core.rows[s.core.nextRow]);
    }
  }

  lemma {:induction false} JoinedCoherent(s: State, t: State, row: Row)
    requires Coherent(s) && Joins(s, t, row)
    ensures Coherent(t)
  {
  }

  lemma {:induction false} DeletionCoherent(s: State, ids: set<nat>)
    requires Coherent(s)
    ensures Coherent(Deleted(s, ids))
  {
  }

  /** The promotion transaction: pointer, both statuses and the Script rows move together. */
  lemma {:induction false} PromotionCoherent(s: State)
    requires Coherent(s) && s.holder.Promoting?
    ensures Coherent(Promoted(s))
    ensures Promotable(s) ==> Promoted(s).site.active == Some(s.holder.row)
  {
    if Promotable(s) {
      var id := s.holder.row;
      var t := Promoted(s);
      SyncConverges(s.site.scripts, s.core.rows[id].published, id);
      assert PointerSound(t.core.rows, t.core.nextRow, t.site.active);
      assert t.core.rows[id].published == s.core.rows[id].published;
    }
  }

  /** A full save of a stale Script row leaves the publication alone. */
  lemma {:induction false} SaveCoherent(s: State, i: Identity, stale: Script)
    requires Coherent(s) && i in s.site.scripts
    ensures Coherent(s.(site := s.site.(scripts := ScriptSaved(s.site.scripts, i, stale))))
  {
    var scripts := ScriptSaved(s.site.scripts, i, stale);
    if s.site.active.Some? {
      var r := s.site.active.value;
      assert Publishes(scripts, s.core.rows[r].published, r);
    }
  }

  /**
   Standing a project down: every Script retires and none vanishes, each keeps its publication and
   what its administrator set, and the revision alone retires with them.
   */
  lemma {:induction false} DeactivationRetiresEverything(s: State, id: nat)
    requires Enabled(s, Deactivate(id))
    ensures var t := Step(s, Deactivate(id));
      && t.site.scripts.Keys == s.site.scripts.Keys
      && (forall i :: i in t.site.scripts ==>
            && t.site.scripts[i].retired
            && t.site.scripts[i].published == s.site.scripts[i].published
            && t.site.scripts[i].lastSeen == s.site.scripts[i].lastSeen
            && t.site.scripts[i].enabled == s.site.scripts[i].enabled
            && t.site.scripts[i].overrides == s.site.scripts[i].overrides)
      && t.site.active == None && t.core.rows[id].status == Retired
      && (forall q :: q in s.core.rows && q != id ==> q in t.core.rows && t.core.rows[q] == s.core.rows[q])
  {
    SyncConverges(s.site.scripts, map[], id);
  }

  /** Deactivating a revision and activating it again. */
  function ThereAndBack(s: State, id: nat): seq<Action>
    requires id in s.core.rows
  {
    [Deactivate(id), BeginPromotion(id, StoodDown(s, id), false), VerifyPromoted, CommitPromotion]
  }

  /** The row deactivation leaves, as a promotion then reads it. */
  function StoodDown(s: State, id: nat): Row
    requires id in s.core.rows
  {
    s.core.rows[id].(status := Retired)
  }

  lemma {:induction false} BackAtVerify(s: State, id: nat)
    requires Enabled(s, Deactivate(id))
    ensures Exec(s, ThereAndBack(s, id)[..2])
         == Deactivated(s, id).(holder := Promoting(id, StoodDown(s, id), false, false))
  {
    var actions, t := ThereAndBack(s, id), Deactivated(s, id);
    ExecTo(s, actions, 1, t);
    ExecTo(s, actions, 2, t.(holder := Promoting(id, StoodDown(s, id), false, false)));
  }

  lemma {:induction false} BackAtCommit(s: State, id: nat)
    requires Enabled(s, Deactivate(id)) && s.core.rows[id].digest.Some?
    requires Intact(s.core.store, s.core.rows[id].digest.value)
    ensures Exec(s, ThereAndBack(s, id)[..3])
         == Deactivated(s, id).(holder := Promoting(id, StoodDown(s, id), false, true))
  {
    BackAtVerify(s, id);
    ExecTo(s, ThereAndBack(s, id), 3, Deactivated(s, id).(holder := Promoting(id, StoodDown(s, id), false, true)));
  }

  /** Retiring every Script and publishing the same revision again restores the table as it was. */
  lemma {:induction false} RepublishingRestores(scripts: Rows, snapshot: Snapshot, id: nat)
    requires Publishes(scripts, snapshot, id)
    ensures Synced(Synced(scripts, map[], id), snapshot, id) == scripts
  {
    SyncConverges(scripts, map[], id);
    SyncConverges(Synced(scripts, map[], id), snapshot, id);
    assert forall i :: i in scripts && i !in snapshot ==> scripts[i].retired;
  }

  /** Activating the same revision again brings back the same rows: the whole table, and the pointer, are as before. */
  lemma {:induction false} ReactivationRestoresEveryRow(s: State, id: nat)
    requires Coherent(s) && Enabled(s, Deactivate(id)) && s.core.rows[id].digest.Some?
    requires Intact(s.core.store, s.core.rows[id].digest.value)
    ensures var t := Exec(s, ThereAndBack(s, id));
      t.site.scripts == s.site.scripts && t.site.active == Some(id) && t.core == s.core
  {
    var actions := ThereAndBack(s, id);
    var u := Deactivated(s, id).(holder := Promoting(id, StoodDown(s, id), false, true));
    BackAtCommit(s, id);
    CommitLast(s, actions, u);
    PromotedBack(s, id);
  }

  /** A run of actions whose last is a promotion's commit. */
  lemma {:induction false} CommitLast(s: State, actions: seq<Action>, u: State)
    requires actions != [] && actions[|actions| - 1] == CommitPromotion && Exec(s, actions[..|actions| - 1]) == u
    requires u.holder.Promoting? && u.holder.verified
    ensures Exec(s, actions) == Promoted(u)
  {
    assert Step(u, CommitPromotion) == Promoted(u);
    ExecTo(s, actions, |actions|, Promoted(u));
    assert actions[..|actions|] == actions;
  }

  /** The promotion of a revision that was just stood down. */
  lemma {:induction false} PromotedBack(s: State, id: nat)
    requires Coherent(s) && Enabled(s, Deactivate(id)) && s.core.rows[id].digest.Some?
    ensures var u := Deactivated(s, id).(holder := Promoting(id, StoodDown(s, id), false, true));
      && Promoted(u).site.scripts == s.site.scripts && Promoted(u).site.active == Some(id)
      && Promoted(u).core == s.core
  {
    var u := Deactivated(s, id).(holder := Promoting(id, StoodDown(s, id), false, true));
    assert Promotable(u);
    RepublishingRestores(s.site.scripts, s.core.rows[id].published, id);
    assert Repointed(u.core.rows, None, id) == s.core.rows;
  }

  lemma {:induction false} ClaimingCoherent(s: State, run: nat, job: nat, id: nat)
    requires Coherent(s) && id in s.core.rows && Claimable(s.core.rows[id], s.work.clock)
    ensures Coherent(ValidationClaimed(s, run, job, id))
  {
    QuietCoherent(s, ValidationClaimed(s, run, job, id));
  }

  lemma {:induction false} VerdictCoherent(s: State, run: nat, v: Verdict)
    requires Coherent(s) && run in s.work.runs
    ensures Coherent(VerdictReached(s, run, v))
  {
    QuietCoherent(s, VerdictReached(s, run, v));
  }

  lemma {:induction false} RevertCoherent(s: State, run: nat)
    requires Coherent(s) && run in s.work.runs
    ensures Coherent(ClaimReverted(s, run))
  {
    QuietCoherent(s, ClaimReverted(s, run));
  }

  lemma {:induction false} ValidatingCoherent(s: State, a: Action)
    requires Coherent(s) && Enabled(s, a) && Validates(a)
    ensures Coherent(Apply(s, a))
  {
    if a.ClaimValidation? { ClaimingCoherent(s, a.run, a.job, a.row); }
    else if a.ReachVerdict? { VerdictCoherent(s, a.run, a.verdict); }
    else if a.RevertClaim? { RevertCoherent(s, a.run); }
    else { QuietCoherent(s, WorkerLost(s, a.run)); }
  }

  lemma {:induction false} LoudStepCoherent(s: State, a: Action)
    requires Coherent(s) && Enabled(s, a) && !Quietly(a) && !Inserts(a)
    ensures Coherent(Apply(s, a))
  {
    if a.CommitPromotion? { PromotionCoherent(s); }
    else if a.Deactivate? { SyncConverges(s.site.scripts, map[], a.row); }
    else if a.DeleteRows? { DeletionCoherent(s, a.ids); }
    else if a.SaveScript? { SaveCoherent(s, a.identity, a.stale); }
    else if a.PersistDiscovery? { QuietCoherent(s, DiscoveryPersisted(s, a.run, a.file)); }
    else { ValidatingCoherent(s, a); }
  }

  lemma {:induction false} StepCoherent(s: State, a: Action)
    requires Coherent(s)
    ensures Coherent(Step(s, a))
  {
    if Quietly(a) {
      QuietSteps(s, a);
      QuietOrJoinedCoherent(s, Step(s, a));
    } else if Inserts(a) {
      InsertingJoins(s, a);
      QuietOrJoinedCoherent(s, Step(s, a));
    } else if Enabled(s, a) {
      LoudStepCoherent(s, a);
    }
  }

  lemma {:induction false} RunCoherent(s: State, actions: seq<Action>)
    requires Coherent(s)
    ensures Coherent(Exec(s, actions))
  {
    if actions != [] {
      RunCoherent(s, actions[..|actions| - 1]);
      StepCoherent(Exec(s, actions[..|actions| - 1]), actions[|actions| - 1]);
    }
  }

  /**
   In every reachable state the active revision field names r exactly when r is the one ACTIVE revision, and
   then the unretired Script rows are exactly r's recorded identities with its recorded fields.
   */
  lemma {:induction false} ServingIsAlwaysCoherent(s: State, actions: seq<Action>)
    requires Fresh(s)
    ensures var t := Exec(s, actions);
      && (forall r :: t.site.active == Some(r) <==> r in t.core.rows && t.core.rows[r].status == Active)
      && (t.site.active.Some? ==>
            var r := t.site.active.value;
            forall i ::
              (i in t.core.rows[r].published <==> i in t.site.scripts && !t.site.scripts[i].retired)
              && (i in t.core.rows[r].published ==>
                    t.site.scripts[i].published == t.core.rows[r].published[i]
                    && t.site.scripts[i].lastSeen == Some(r)))
  {
    RunCoherent(s, actions);
  }

  /** With nothing served, nothing is published. */
  ghost predicate Withdrawn(s: State) {
    s.site.active == None ==> forall i :: i in s.site.scripts ==> s.site.scripts[i].retired
  }

  lemma {:induction false} LoudStepWithdrawn(s: State, a: Action)
    requires Withdrawn(s) && !a.DeleteRows? && !Quietly(a) && !Inserts(a)
    ensures Withdrawn(Step(s, a))
  {
    if a.Deactivate? && Enabled(s, a) { DeactivationRetiresEverything(s, a.row); }
  }

  /** While nothing is deleted, a project that serves no revision publishes no Script. */
  lemma {:induction false} NothingServedNothingPublished(s: State, actions: seq<Action>)
    requires Fresh(s) && forall k :: 0 <= k < |actions| ==> !actions[k].DeleteRows?
    ensures Withdrawn(Exec(s, actions))
  {
    if actions != [] {
      var t, a := Exec(s, actions[..|actions| - 1]), actions[|actions| - 1];
      NothingServedNothingPublished(s, actions[..|actions| - 1]);
      if Quietly(a) { QuietSteps(t, a); }
      else if Inserts(a) { InsertingJoins(t, a); }
      else { LoudStepWithdrawn(t, a); }
    }
  }
}
