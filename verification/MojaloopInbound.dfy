/** Inbound transfer callbacks (internal/mojaloop/store.go): callbacks in any order and multiplicity,
    interleaved with timeout sweeps. */
module MojaloopInbound {
  import opened Wrappers
  import opened Mojaloop

  datatype Row = Row(identity: Identity, state: TransferState, fulfilment: string, bodyHash: string, updatedAt: int, timedOutAt: Option<int>)

  datatype Timeout = Timeout(transferId: string, reservedAt: int, timedOutAt: int)

  /** The callback rows, the timeout audit rows, and, for reasoning only in that no call reads it, the
      states each transfer went through. */
  datatype Tables = Tables(rows: map<string, Row>, timeouts: seq<Timeout>, history: map<string, seq<TransferState>>)

  datatype Outcome = Recorded | Duplicate | Rejected(error: Error)

  function Past(t: Tables, id: string): seq<TransferState> { if id in t.history then t.history[id] else [] }

  function Write(t: Tables, id: string, row: Row): Tables {
    t.(rows := t.rows[id := row], history := t.history[id := Past(t, id) + [row.state]])
  }

  function ApplyCallback(c: Crypto, t: Tables, cb: Callback, body: string, now: int): (r: (Tables, Outcome))
    ensures r.1 != Recorded ==> r.0 == t
    ensures r.1 == Recorded ==>
              var id := cb.identity.transferId;
              var timedOut := if id in t.rows then t.rows[id].timedOutAt else None;
              && r.0 == Write(t, id, Row(cb.identity, cb.state, cb.fulfilment, c.digest(body), now, timedOut))
              && (if id in t.rows then t.rows[id].identity == cb.identity && t.rows[id].state == Reserved && Terminal(cb.state)
                  else cb.state == Reserved)
  {
    var id := cb.identity.transferId;
    if !CompleteIdentity(cb.identity) then (t, Rejected(MissingIdentity))
    else if id !in t.rows then
      var e := ValidateTransferCallback(None, cb);
      if e.Some? then (t, Rejected(e.value))
      else (Write(t, id, Row(cb.identity, cb.state, cb.fulfilment, c.digest(body), now, None)), Recorded)
    else
      var current := t.rows[id];
      if current.identity != cb.identity then (t, Rejected(IdentityChange))
      else if current.bodyHash == c.digest(body) then (t, Duplicate)
      else
        var e := ValidateTransferCallback(Some((current.identity, current.state)), cb);
        if e.Some? then (t, Rejected(e.value))
        else if Terminal(current.state) then (t, Rejected(ConflictingBody))
        else (Write(t, id, current.(state := cb.state, fulfilment := cb.fulfilment, bodyHash := c.digest(body), updatedAt := now)), Recorded)
  }

  // ---- sweeps ----

  predicate Expired(r: Row, cutoff: int) { r.state == Reserved && r.timedOutAt.None? && r.updatedAt < cutoff }

  const BATCH := 500

  /** Some order of at most 500 of the expired transfers, all of them when there are fewer. */
  ghost predicate Selection(t: Tables, cutoff: int, ids: seq<string>) {
    && (forall i :: 0 <= i < |ids| ==> ids[i] in t.rows && Expired(t.rows[ids[i]], cutoff))
    && (forall i, j :: 0 <= i < j < |ids| ==> ids[i] != ids[j])
    && |ids| <= BATCH
    && (|ids| < BATCH ==> forall id :: id in t.rows && Expired(t.rows[id], cutoff) ==> id in ids)
  }

  /** Mark the transfers one after the other, each with its audit row. */
  function Mark(t: Tables, ids: seq<string>, now: int): Tables
    requires forall i :: 0 <= i < |ids| ==> ids[i] in t.rows
  {
    if ids == [] then t
    else
      var id := ids[|ids| - 1];
      var earlier := Mark(t, ids[..|ids| - 1], now);
      if id in earlier.rows then
        earlier.(timeouts := earlier.timeouts + [Timeout(id, t.rows[id].updatedAt, now)],
                 rows := if earlier.rows[id].timedOutAt.None? then earlier.rows[id := earlier.rows[id].(timedOutAt := Some(now))] else earlier.rows)
      else earlier
  }

  /** The sweep of one tick as a loop over the selected rows. */
  method Sweep(t: Tables, ids: seq<string>, now: int) returns (after: Tables, marked: nat)
    requires forall i :: 0 <= i < |ids| ==> ids[i] in t.rows
    ensures after == Mark(t, ids, now) && marked == |ids|
  {
    after := t;
    for k := 0 to |ids|
      invariant after == Mark(t, ids[..k], now)
    {
      assert ids[..k + 1][..k] == ids[..k];
      var id := ids[k];
      if id in after.rows {
        after := after.(timeouts := after.timeouts + [Timeout(id, t.rows[id].updatedAt, now)],
                        rows := if after.rows[id].timedOutAt.None? then after.rows[id := after.rows[id].(timedOutAt := Some(now))] else after.rows);
      }
    }
    assert ids[..|ids|] == ids;
    marked := |ids|;
  }

  /** Marking leaves states, identities and histories alone, marks exactly the selected transfers, and
      writes one audit row for each. */
  lemma {:induction false} MarkMarks(t: Tables, ids: seq<string>, now: int)
    requires forall i :: 0 <= i < |ids| ==> ids[i] in t.rows && t.rows[ids[i]].timedOutAt.None?
    requires forall i, j :: 0 <= i < j < |ids| ==> ids[i] != ids[j]
    ensures var u := Mark(t, ids, now);
            && u.rows.Keys == t.rows.Keys && u.history == t.history
            && (forall id :: id in t.rows ==> u.rows[id] == (if id in ids then t.rows[id].(timedOutAt := Some(now)) else t.rows[id]))
            && |u.timeouts| == |t.timeouts| + |ids| && t.timeouts <= u.timeouts
            && (forall i :: 0 <= i < |ids| ==> u.timeouts[|t.timeouts| + i] == Timeout(ids[i], t.rows[ids[i]].updatedAt, now))
  {
    if ids != [] {
      var init, id := ids[..|ids| - 1], ids[|ids| - 1];
      MarkMarks(t, init, now);
      assert id !in init;
      assert forall x :: x in ids <==> x in init || x == id;
    }
  }

  /** A callback is recorded exactly when its identity is complete and either it opens the transfer with RESERVED
      or, with another body than the last and under the same identity, it ends a RESERVED one. */
  lemma DeliveryRecordsExactly(c: Crypto, t: Tables, cb: Callback, body: string, now: int)
    ensures var i := cb.identity;
            var complete := "" !in {i.transferId, i.payerFsp, i.payeeFsp, i.amount, i.currency};
            ApplyCallback(c, t, cb, body, now).1 == Recorded <==>
              && complete
              && if i.transferId in t.rows then
                   && t.rows[i.transferId].identity == i && t.rows[i.transferId].bodyHash != c.digest(body)
                   && t.rows[i.transferId].state == Reserved && cb.state in {Committed, Aborted}
                 else cb.state == Reserved
  {
    var i := cb.identity;
    assert CompleteIdentity(i) <==> "" !in {i.transferId, i.payerFsp, i.payeeFsp, i.amount, i.currency};
  }

  /** A sweep marks only RESERVED transfers, not marked before, that were last updated before the cutoff; with
      fewer than 500 marked it leaves none of them unmarked. */
  lemma SweepMarksExactly(t: Tables, ids: seq<string>, cutoff: int, now: int)
    requires Selection(t, cutoff, ids)
    ensures var u := Mark(t, ids, now);
            && u.rows.Keys == t.rows.Keys && |u.timeouts| <= |t.timeouts| + 500
            && (forall id :: id in t.rows && u.rows[id] != t.rows[id] ==>
                  && t.rows[id].state == Reserved && t.rows[id].timedOutAt.None? && t.rows[id].updatedAt < cutoff
                  && u.rows[id] == t.rows[id].(timedOutAt := Some(now)))
            && (|u.timeouts| < |t.timeouts| + 500 ==>
                  forall id :: id in t.rows && t.rows[id].state == Reserved && t.rows[id].updatedAt < cutoff ==>
                                 u.rows[id].timedOutAt.Some?)
  {
    MarkMarks(t, ids, now);
    forall id | id in ids ensures id in t.rows && Expired(t.rows[id], cutoff) {
      var i :| 0 <= i < |ids| && ids[i] == id;
    }
  }

  // ---- runs ----

  datatype Step = Deliver(cb: Callback, body: string, now: int) | Tick(ids: seq<string>, cutoff: int, now: int)

  ghost predicate Enabled(t: Tables, s: Step) {
    s.Tick? ==> Selection(t, s.cutoff, s.ids)
  }

  ghost function Apply(c: Crypto, t: Tables, s: Step): Tables
    requires Enabled(t, s)
  {
    match s
    case Deliver(cb, body, now) => ApplyCallback(c, t, cb, body, now).0
    case Tick(ids, _, now) => Mark(t, ids, now)
  }

  ghost predicate Moves(c: Crypto, t: Tables, u: Tables) {
    exists s :: Enabled(t, s) && Apply(c, t, s) == u
  }

  ghost predicate Run(c: Crypto, ts: seq<Tables>) {
    && ts != [] && ts[0] == Tables(map[], [], map[])
    && forall i :: 0 <= i < |ts| - 1 ==> Moves(c, ts[i], ts[i + 1])
  }

  /** Nothing, RESERVED, or RESERVED then one terminal state. */
  predicate Legal(history: seq<TransferState>) {
    || history == []
    || history == [Reserved]
    || (|history| == 2 && history[0] == Reserved && Terminal(history[1]))
  }

  ghost predicate RowOk(t: Tables, id: string) {
    var past := Past(t, id);
    Legal(past) && (if id in t.rows then past != [] && t.rows[id].state == past[|past| - 1] else past == [])
  }

  /** A transfer is marked exactly when it has an audit row. */
  ghost predicate TimeoutsOk(t: Tables) {
    && (forall i, j :: 0 <= i < j < |t.timeouts| ==> t.timeouts[i].transferId != t.timeouts[j].transferId)
    && (forall i :: 0 <= i < |t.timeouts| ==> t.timeouts[i].transferId in t.rows && t.rows[t.timeouts[i].transferId].timedOutAt.Some?)
  }

  ghost predicate Inv(t: Tables) { (forall id :: RowOk(t, id)) && TimeoutsOk(t) }

  lemma DeliverKeepsInv(c: Crypto, t: Tables, cb: Callback, body: string, now: int)
    requires Inv(t)
    ensures Inv(ApplyCallback(c, t, cb, body, now).0)
  {
    var u := ApplyCallback(c, t, cb, body, now).0;
    forall id ensures RowOk(u, id) {
      assert RowOk(t, id);
    }
  }

  lemma TickKeepsInv(t: Tables, ids: seq<string>, cutoff: int, now: int)
    requires Inv(t) && Selection(t, cutoff, ids)
    ensures Inv(Mark(t, ids, now))
  {
    MarkMarks(t, ids, now);
    var u := Mark(t, ids, now);
    forall id ensures RowOk(u, id) {
      assert RowOk(t, id);
    }
    forall i | |t.timeouts| <= i < |u.timeouts| ensures u.timeouts[i].transferId == ids[i - |t.timeouts|] {
      assert u.timeouts[|t.timeouts| + (i - |t.timeouts|)] == u.timeouts[i];
    }
    assert forall i :: 0 <= i < |ids| ==> ids[i] in ids;
    AuditOnce(t, u, ids);
  }

  lemma AuditOnce(t: Tables, u: Tables, ids: seq<string>)
    requires TimeoutsOk(t) && t.timeouts <= u.timeouts && |u.timeouts| == |t.timeouts| + |ids|
    requires forall i :: |t.timeouts| <= i < |u.timeouts| ==> u.timeouts[i].transferId == ids[i - |t.timeouts|]
    requires forall i :: 0 <= i < |ids| ==> ids[i] in t.rows && t.rows[ids[i]].timedOutAt.None?
    requires forall i, j :: 0 <= i < j < |ids| ==> ids[i] != ids[j]
    ensures forall i, j :: 0 <= i < j < |u.timeouts| ==> u.timeouts[i].transferId != u.timeouts[j].transferId
  {
    forall i, j | 0 <= i < j < |u.timeouts| ensures u.timeouts[i].transferId != u.timeouts[j].transferId {
      if i < |t.timeouts| {
        assert u.timeouts[i] == t.timeouts[i];
        if j < |t.timeouts| {
          assert u.timeouts[j] == t.timeouts[j];
        }
      }
    }
  }

  lemma {:induction false} RunKeepsInv(c: Crypto, ts: seq<Tables>, i: nat)
    requires Run(c, ts) && i < |ts|
    ensures Inv(ts[i])
  {
    if i > 0 {
      RunKeepsInv(c, ts, i - 1);
      assert Moves(c, ts[i - 1], ts[i]);
      var s :| Enabled(ts[i - 1], s) && Apply(c, ts[i - 1], s) == ts[i];
      match s
      case Deliver(cb, body, now) => DeliverKeepsInv(c, ts[i - 1], cb, body, now);
      case Tick(ids, cutoff, now) => TickKeepsInv(ts[i - 1], ids, cutoff, now);
    }
  }

  /** In every run, a transfer's history is nothing, RESERVED, or RESERVED then its first accepted
      terminal state, its row shows the last of it, and it has at most one timeout audit row. */
  lemma HistoriesAreLegal(c: Crypto, ts: seq<Tables>, i: nat, id: string)
    requires Run(c, ts) && i < |ts|
    ensures Legal(Past(ts[i], id)) && (id in ts[i].rows <==> Past(ts[i], id) != [])
    ensures id in ts[i].rows ==> ts[i].rows[id].state == Past(ts[i], id)[|Past(ts[i], id)| - 1]
    ensures forall j, k :: 0 <= j < k < |ts[i].timeouts| ==> ts[i].timeouts[j].transferId != ts[i].timeouts[k].transferId
  {
    RunKeepsInv(c, ts, i);
    assert RowOk(ts[i], id);
  }

  /** One step never changes an identity, never leaves a terminal state, only extends the history, and a
      sweep changes no state at all. */
  lemma StepStands(c: Crypto, t: Tables, u: Tables, id: string)
    requires Moves(c, t, u) && id in t.rows
    ensures id in u.rows && u.rows[id].identity == t.rows[id].identity && Past(t, id) <= Past(u, id)
    ensures Terminal(t.rows[id].state) ==> u.rows[id] == t.rows[id]
    ensures t.rows[id].timedOutAt.Some? ==> u.rows[id].timedOutAt == t.rows[id].timedOutAt
    ensures t.timeouts <= u.timeouts
  {
    var s :| Enabled(t, s) && Apply(c, t, s) == u;
    if s.Tick? {
      MarkMarks(t, s.ids, s.now);
    }
  }

  lemma {:induction false} HistoryStands(c: Crypto, ts: seq<Tables>, i: nat, j: nat, id: string)
    requires Run(c, ts) && i <= j < |ts| && id in ts[i].rows
    ensures id in ts[j].rows && ts[j].rows[id].identity == ts[i].rows[id].identity && Past(ts[i], id) <= Past(ts[j], id)
    ensures Terminal(ts[i].rows[id].state) ==> ts[j].rows[id] == ts[i].rows[id]
    decreases j - i
  {
    if i < j {
      HistoryStands(c, ts, i, j - 1, id);
      StepStands(c, ts[j - 1], ts[j], id);
    }
  }

  lemma StepKeepsBody(c: Crypto, t: Tables, u: Tables, id: string)
    requires Moves(c, t, u) && id in t.rows && Past(u, id) == Past(t, id)
    ensures id in u.rows && u.rows[id] == t.rows[id].(timedOutAt := u.rows[id].timedOutAt)
  {
    var s :| Enabled(t, s) && Apply(c, t, s) == u;
    if s.Tick? {
      MarkMarks(t, s.ids, s.now);
    }
  }

  /** While nothing is recorded for a transfer, only its timeout mark can change. */
  lemma {:induction false} RunKeepsBody(c: Crypto, ts: seq<Tables>, i: nat, j: nat, id: string)
    requires Run(c, ts) && i <= j < |ts| && id in ts[i].rows && Past(ts[j], id) == Past(ts[i], id)
    ensures id in ts[j].rows && ts[j].rows[id] == ts[i].rows[id].(timedOutAt := ts[j].rows[id].timedOutAt)
    decreases j - i
  {
    if i < j {
      HistoryStands(c, ts, i, j - 1, id);
      StepStands(c, ts[j - 1], ts[j], id);
      assert Past(ts[j - 1], id) == Past(ts[i], id);
      RunKeepsBody(c, ts, i, j - 1, id);
      StepKeepsBody(c, ts[j - 1], ts[j], id);
    }
  }

  /** Once recorded, a body never changes anything again, however late it is delivered; it is answered as a
      duplicate as long as nothing else has been recorded for its transfer, whatever sweeps and other
      transfers did in between. */
  lemma RecordedBodyChangesNothing(c: Crypto, ts: seq<Tables>, i: nat, j: nat, cb: Callback, body: string, now: int, later: int)
    requires Run(c, ts) && i < j < |ts| && (ts[i + 1], Recorded) == ApplyCallback(c, ts[i], cb, body, now)
    ensures ApplyCallback(c, ts[j], cb, body, later).0 == ts[j]
    ensures Past(ts[j], cb.identity.transferId) == Past(ts[i + 1], cb.identity.transferId) ==>
              ApplyCallback(c, ts[j], cb, body, later).1 == Duplicate
  {
    var id := cb.identity.transferId;
    HistoryStands(c, ts, i + 1, j, id);
    if Past(ts[j], id) == Past(ts[i + 1], id) {
      RunKeepsBody(c, ts, i + 1, j, id);
    } else {
      HistoriesAreLegal(c, ts, i + 1, id);
      HistoriesAreLegal(c, ts, j, id);
      assert Terminal(ts[j].rows[id].state);
    }
  }
}
