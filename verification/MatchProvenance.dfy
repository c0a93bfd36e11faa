/** Which event a match row comes from, and when it was projected, over whole runs of the pipeline. */
module MatchProvenance {
  import opened Common
  import opened MatchEvents
  import opened MatchReducer
  import opened Ordering
  import opened EventStore
  import opened EventInvariants
  import opened Pipeline

  /** The step projects a football event of the subject that changes what its row shows. */
  ghost predicate Changes(s: System, action: Action, subject: nat) {
    && Shaped(s) && Enabled(s, action) && action.ProjectStep? && s.batch[0].subject == subject && s.batch[0].football.Some?
    && MatchStateOf(Next(s, action).db, subject) != MatchStateOf(s.db, subject)
  }

  /** A row either stays as it is, goes, or is written by a projection that changes it. */
  lemma RowsChangeByProjection(s: System, action: Action, subject: nat)
    requires Shaped(s) && Enabled(s, action) && subject in Next(s, action).db.matches
    ensures var row := Next(s, action).db.matches[subject];
      || (subject in s.db.matches && s.db.matches[subject] == row)
      || (Changes(s, action, subject) && row.lastEvent == s.batch[0].id && row.updatedAt == action.now
          && Next(s, action).past.applied == s.past.applied + [Entry(action.cursor, s.batch[0])])
  {
    hide PersistOutcome, RowsToClaim, Claims, RetirementBatch, StaleMatches, Keep, Tombstones, Reduce;
  }

  lemma AppliedGrows(s: System, action: Action)
    requires Shaped(s) && Enabled(s, action)
    ensures s.past.applied <= Next(s, action).past.applied
  {
    hide PersistOutcome, RowsToClaim, Claims, RetirementBatch, StaleMatches, Keep, Tombstones, MatchesAfter, Poisonous;
  }

  lemma {:induction false} AppliedGrowsAlong(states: seq<System>, actions: seq<Action>, k: nat, i: nat)
    requires IsRun(states, actions) && k <= i < |states|
    ensures states[k].past.applied <= states[i].past.applied
  {
    if k < i {
      hide Next;
      AppliedGrowsAlong(states, actions, k, i - 1);
      AppliedGrows(states[i - 1], actions[i - 1]);
    }
  }

  /**
   In every reachable state a match row names the event of the last projection that changed what the row
   shows, and the time of that projection; nothing that was projected, published or retired since has
   changed it.
   */
  lemma {:induction false} RowsNameTheirEvent(states: seq<System>, actions: seq<Action>, i: nat, subject: nat) returns (k: nat)
    requires IsRun(states, actions) && i < |states| && subject in states[i].db.matches
    ensures k < i && Changes(states[k], actions[k], subject)
    ensures var row, event := states[i].db.matches[subject], states[k].batch[0];
      && row.lastEvent == event.id && row.updatedAt == actions[k].now
      && MatchStateOf(states[k + 1].db, subject) == Some(row.state)
      && |states[k].past.applied| < |states[i].past.applied|
      && states[i].past.applied[|states[k].past.applied|].envelope == event
    ensures forall j :: k < j < i ==> MatchStateOf(states[j + 1].db, subject) == MatchStateOf(states[j].db, subject)
  {
    hide Changes, Next;
    if i == 0 {
      assert false;
    } else {
      RowsChangeByProjection(states[i - 1], actions[i - 1], subject);
      if subject in states[i - 1].db.matches && states[i - 1].db.matches[subject] == states[i].db.matches[subject] {
        k := RowsNameTheirEvent(states, actions, i - 1, subject);
        AppliedGrowsAlong(states, actions, i - 1, i);
      } else {
        k := i - 1;
      }
    }
  }

  // ---------------------------------------------------------------- what retention leaves

  /** A match that was updated lately, is live or at halftime, or is the active one. */
  predicate Guarded(db: Database, policy: Policy, subject: nat) {
    subject in db.matches
    && (|| db.matches[subject].updatedAt >= policy.cutoff
        || db.matches[subject].state.status.Live?
        || db.matches[subject].state.status.Interval?
        || policy.active == Some(subject))
  }

  /** No batch takes the event that a guarded row names, nor the row. */
  lemma GuardedRowsKeepTheirEvent(db: Database, policy: Policy, limit: nat, subject: nat)
    requires Guarded(db, policy, subject)
    ensures var after := Retain(db, policy, limit); var row := db.matches[subject];
      && subject in after.matches && after.matches[subject] == row
      && (row.lastEvent in db.canonical ==>
            row.lastEvent in after.canonical && after.canonical[row.lastEvent] == db.canonical[row.lastEvent])
  {
    var ids := Elements(RetirementBatch(db, policy, limit));
    OrderedIsComplete(Eligible(db, policy), IngestRank(db));
    forall id | id in ids ensures IsEligible(db, policy, id) {
      assert id in Elements(Ordered(Eligible(db, policy), IngestRank(db)));
    }
    hide RetirementBatch, Keep, Tombstones, Published;
  }
}
