/**
The row layout shared by outbox_events and inbox_messages, and the BEFORE UPDATE triggers
of migration 016 that guard their status column. The two trigger bodies differ only in the
name of their success status ('published' / 'processed'), written Done here.
*/
module StatusTriggers {
  import opened Common

  datatype Status = Pending | Processing | Done | Failed | DeadLetter

  datatype Row = Row(
    status: Status,
    claimedBy: Option<WorkerId>,
    claimedUntil: Option<int>,
    availableAt: int,
    attempts: nat,
    finishedAt: Option<int>,   // published_at / processed_at
    updatedAt: Option<int>
  )

  predicate Terminal(r: Row) { r.status.Done? || r.status.DeadLetter? }

  // The transition set of migration 016.
  predicate Allowed(from: Status, to: Status) {
    || (from.Pending? && (to.Processing? || to.Failed?))
    || (from.Processing? && (to.Done? || to.Failed? || to.Pending? || to.DeadLetter?))
    || (from.Failed? && (to.Pending? || to.Processing? || to.DeadLetter?))
  }

  /** The nine edges one by one; every status but the two final ones can be left. */
  lemma AllowedExactly(from: Status, to: Status)
    ensures Allowed(from, to) <==> (from, to) in {
              (Pending, Processing), (Pending, Failed),
              (Processing, Done), (Processing, Failed), (Processing, Pending), (Processing, DeadLetter),
              (Failed, Pending), (Failed, Processing), (Failed, DeadLetter)}
    ensures (exists s :: Allowed(from, s)) <==> !from.Done? && !from.DeadLetter?
  {
    if from.Pending? || from.Failed? { assert Allowed(from, Processing); }
    if from.Processing? { assert Allowed(from, Done); }
  }

  // The transition set of migration 014, restored by the 016 downgrade.
  predicate Allowed014(from: Status, to: Status) {
    || (from.Pending? && (to.Processing? || to.Failed?))
    || (from.Processing? && (to.Done? || to.Failed? || to.Pending?))
    || (from.Failed? && (to.Pending? || to.Processing?))
  }

  // What the trigger hands back to the UPDATE; None is the raised exception.
  function Fired(old_: Row, new_: Row, now: int): Option<Row> {
    if new_.status == old_.status then Some(new_)
    else if Allowed(old_.status, new_.status) then
      Some(new_.(updatedAt := Some(now),
                 finishedAt := if new_.status.Done? && new_.finishedAt.None? then Some(now) else new_.finishedAt))
    else None
  }

  /** check_outbox_status_transition / check_inbox_status_transition, statement by statement. */
  method CheckStatusTransition(old_: Row, new_: Row, now: int) returns (r: Option<Row>)
    ensures r == Fired(old_, new_, now)
    ensures r.None? <==> old_.status != new_.status && !Allowed(old_.status, new_.status)
    ensures Terminal(old_) && r.Some? ==> r.value.status == old_.status
    ensures r.Some? && new_.status == old_.status ==> r.value == new_
    ensures r.Some? && new_.status != old_.status ==>
              && r.value.updatedAt == Some(now)
              && r.value.finishedAt == (if new_.status.Done? && new_.finishedAt.None? then Some(now) else new_.finishedAt)
              && r.value.(updatedAt := new_.updatedAt, finishedAt := new_.finishedAt) == new_
  {
    if new_.status == old_.status {
      return Some(new_);
    }
    var row := new_;
    if Allowed(old_.status, new_.status) {
      row := row.(updatedAt := Some(now));
      if row.status.Done? {
        row := row.(finishedAt := if row.finishedAt.Some? then row.finishedAt else Some(now));
      }
      return Some(row);
    }
    return None;
  }

  // The row after an UPDATE statement that fires the trigger; a raised exception aborts it.
  function Updated(old_: Row, new_: Row, now: int): Row {
    match Fired(old_, new_, now)
    case Some(r) => r
    case None => old_
  }

  // One UPDATE is legal when the trigger lets it through.
  predicate Accepted(old_: Row, new_: Row) {
    new_.status == old_.status || Allowed(old_.status, new_.status)
  }

  // A history of row images, each written by an UPDATE over the one before it.
  ghost predicate History(h: seq<Row>) {
    forall i :: 0 < i < |h| ==> Accepted(h[i - 1], h[i])
  }

  /** published, processed and dead_letter are absorbing under every accepted history. */
  lemma {:induction false} TerminalAbsorbing(h: seq<Row>, i: nat, j: nat)
    requires History(h) && i <= j < |h| && Terminal(h[i])
    ensures h[j].status == h[i].status
    decreases j - i
  {
    if i < j {
      assert Accepted(h[i], h[i + 1]);
      TerminalAbsorbing(h, i + 1, j);
    }
  }

  /** The downgrade restores exactly the 016 machine without its edges into dead_letter. */
  lemma DowngradeOnlyClosesDeadLetter(from: Status, to: Status)
    ensures Allowed014(from, to) <==> Allowed(from, to) && !to.DeadLetter?
  {
  }
}
