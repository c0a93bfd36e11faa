/** What a claim on outbox rows promises to other publisher passes. */
module OutboxClaims {
  import opened Common
  import opened Ordering
  import opened EventStore

  lemma ClaimedAreClaimable(db: Database, now: int, limit: nat)
    ensures forall row :: row in RowsToClaim(db, now, limit) ==> row in ClaimableRows(db, now)
    ensures |RowsToClaim(db, now, limit)| <= limit
  {
    OrderedIsComplete(ClaimableRows(db, now), RowRank(db));
    forall row | row in RowsToClaim(db, now, limit) ensures row in ClaimableRows(db, now) {
      assert row in Elements(Ordered(ClaimableRows(db, now), RowRank(db)));
    }
  }

  /** A claimed row is left alone by every pass of the next 30 seconds, and open to all passes after them. */
  lemma ClaimsHoldForThirtySeconds(db: Database, now: int, limit: nat, row: nat, later: int, again: nat)
    requires row in RowsToClaim(db, now, limit)
    ensures row in ClaimableRows(ClaimRows(db, now, limit), later) <==> later > now + 30
    ensures later <= now + 30 ==> row !in RowsToClaim(ClaimRows(db, now, limit), later, again)
  {
    ClaimedAreClaimable(db, now, limit);
    ClaimedAreClaimable(ClaimRows(db, now, limit), later, again);
    hide RowsToClaim;
  }

  /** A claimable row that a pass leaves behind stands behind a full claim of lower rows. */
  lemma LowestRowsGoFirst(db: Database, now: int, limit: nat, row: nat)
    requires row in ClaimableRows(db, now) && row !in RowsToClaim(db, now, limit)
    ensures |RowsToClaim(db, now, limit)| == limit
    ensures forall claimed :: claimed in RowsToClaim(db, now, limit) ==> claimed < row
  {
    var rows, rank := ClaimableRows(db, now), RowRank(db);
    var all := Ordered(rows, rank);
    OrderedIsComplete(rows, rank);
    assert row in Elements(all);
    var k :| 0 <= k < |all| && all[k] == row;
    forall claimed | claimed in RowsToClaim(db, now, limit) ensures claimed < row {
      var j :| 0 <= j < |RowsToClaim(db, now, limit)| && RowsToClaim(db, now, limit)[j] == claimed;
      assert all[j] == claimed && all[k] !in all[..limit];
      OrderedIsSorted(rows, rank, j, k);
    }
  }

  /** A claim lists its rows upwards, and passes over a claimable row only when it is full of lower ones. */
  lemma LowestRowsFirst(db: Database, now: int, limit: nat)
    ensures var rows := RowsToClaim(db, now, limit);
      && |rows| <= limit && (forall r :: r in rows ==> r in db.outbox && Claimable(db.outbox[r], now))
      && (forall i, j :: 0 <= i < j < |rows| ==> rows[i] < rows[j])
      && forall left :: left in db.outbox && Claimable(db.outbox[left], now) && left !in rows
                        ==> |rows| == limit && forall r :: r in rows ==> r < left
  {
    var rows := RowsToClaim(db, now, limit);
    ClaimedAreClaimable(db, now, limit);
    forall i, j | 0 <= i < j < |rows| ensures rows[i] < rows[j] {
      OrderedIsSorted(ClaimableRows(db, now), RowRank(db), i, j);
    }
    forall left | left in db.outbox && Claimable(db.outbox[left], now) && left !in rows
      ensures |rows| == limit && forall r :: r in rows ==> r < left
    {
      assert left in ClaimableRows(db, now);
      LowestRowsGoFirst(db, now, limit, left);
    }
  }

  /** A published row is never claimed again; a failed one may be claimed at once, its attempt counted. */
  lemma OutcomesDecideTheNextClaim(db: Database, row: nat, at: int, now: int, limit: nat)
    requires row in db.outbox && db.outbox[row].publishedAt.None?
    ensures row !in RowsToClaim(MarkPublished(db, row, at), now, limit)
    ensures row in ClaimableRows(MarkFailed(db, row), now)
    ensures MarkFailed(db, row).outbox[row].attempts == db.outbox[row].attempts + 1
  {
    ClaimedAreClaimable(MarkPublished(db, row, at), now, limit);
    hide RowsToClaim;
  }
}
