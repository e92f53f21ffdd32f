/** What a reconciliation run reads and what its transaction leaves, row by row. */
module ReconCommits {
  import opened Wrappers
  import opened ReconSpec
  import opened ReconTheorems
  import opened ReconStore

  // ---- what is loaded ----

  /** A run looks at the open notes without a match, the settlements neither matched nor linked to an assessment,
      the lines without a match, and the assessments without a settlement. */
  lemma LoadsExactly(t: Tables, asOf: string)
    ensures var inp := Load(t, asOf);
            && inp.asOf == asOf
            && (forall n :: n in inp.notes <==> exists r :: r in t.notes && r.note == n && r.open
                                                            && forall m :: m in t.matches ==> m.noteId != n.id)
            && (forall s :: s in inp.settlements <==>
                  s in t.settlements && (forall m :: m in t.matches ==> m.settlementId != s.id)
                  && forall r :: r in t.intake ==> r.link != Some(s.id))
            && (forall l :: l in inp.lines <==>
                  l in t.lines && forall m :: m in t.matches ==> m.statementId != l.statementId || m.lineNo != l.lineNo)
            && (forall i :: i in inp.intake <==> exists r :: r in t.intake && r.intake == i && r.link.None?)
  {
    var inp := Load(t, asOf);
    forall n ensures n in inp.notes <==> exists r :: r in t.notes && r.note == n && r.open
                                                     && forall m :: m in t.matches ==> m.noteId != n.id {
      LoadedNote(t, asOf, n);
    }
    forall s ensures s in inp.settlements <==>
                       s in t.settlements && (forall m :: m in t.matches ==> m.settlementId != s.id)
                       && forall r :: r in t.intake ==> r.link != Some(s.id) {
    }
    forall l ensures l in inp.lines <==>
                       l in t.lines && forall m :: m in t.matches ==> m.statementId != l.statementId || m.lineNo != l.lineNo {
      KeepLinesIsFilter(t.lines, t.matches);
    }
    forall i ensures i in inp.intake <==> exists r :: r in t.intake && r.intake == i && r.link.None? {
      LoadedIntake(t, asOf, i);
    }
  }

  lemma LoadedIntake(t: Tables, asOf: string, i: Intake)
    ensures i in Load(t, asOf).intake <==> exists r :: r in t.intake && r.intake == i && r.link.None?
  {
    var rows, is_ := OpenIntakeRows(t), Load(t, asOf).intake;
    if i in is_ {
      var k :| 0 <= k < |is_| && is_[k] == i;
      assert rows[k] in rows;
    }
    if r :| r in t.intake && r.intake == i && r.link.None? {
      assert r in rows;
      var k :| 0 <= k < |rows| && rows[k] == r;
      assert is_[k] == i;
    }
  }

  // ---- what is left ----

  /** A row linked before keeps its link; another one is linked to the first planned settlement of its event. */
  predicate LinkedRight(row: IntakeRow, row': IntakeRow, ims: seq<IntakeMatch>) {
    && row'.intake == row.intake
    && (row.link.Some? ==> row'.link == row.link)
    && (row.link.None? && row'.link.None? ==> forall im :: im in ims ==> im.eventId != row.intake.eventId)
    && (row.link.None? && row'.link.Some? ==>
          exists k :: 0 <= k < |ims| && ims[k].eventId == row.intake.eventId && row'.link == Some(ims[k].settlementId)
                      && forall j :: 0 <= j < k ==> ims[j].eventId != row.intake.eventId)
  }

  lemma {:induction false} LinksAreFirst(rows: seq<IntakeRow>, ims: seq<IntakeMatch>)
    ensures |Link(rows, ims)| == |rows|
    ensures forall i :: 0 <= i < |rows| ==> LinkedRight(rows[i], Link(rows, ims)[i], ims)
  {
    if ims != [] {
      var init, im := ims[..|ims| - 1], ims[|ims| - 1];
      LinksAreFirst(rows, init);
      forall i | 0 <= i < |rows| ensures LinkedRight(rows[i], Link(rows, ims)[i], ims) {
        OneMoreLink(rows[i], Link(rows, init)[i], init, im);
        assert init + [im] == ims;
      }
    }
  }

  lemma OneMoreLink(row: IntakeRow, mid: IntakeRow, init: seq<IntakeMatch>, im: IntakeMatch)
    requires LinkedRight(row, mid, init)
    ensures LinkedRight(row, LinkOne([mid], im)[0], init + [im])
  {
    var ims, row' := init + [im], LinkOne([mid], im)[0];
    if row.link.None? && mid.link.Some? {
      var k :| 0 <= k < |init| && init[k].eventId == row.intake.eventId && mid.link == Some(init[k].settlementId)
               && forall j :: 0 <= j < k ==> init[j].eventId != row.intake.eventId;
      assert ims[k] == init[k] && forall j :: 0 <= j < k ==> ims[j] == init[j];
    } else if row.link.None? && row'.link.Some? {
      assert ims[|init|] == im;
      assert forall j :: 0 <= j < |init| ==> ims[j] == init[j] && init[j] in init;
    }
  }

  /** What is queued after a plan: what was there, then OPEN entries for planned exceptions whose key was not
      OPEN, and for each planned key one entry is OPEN. */
  lemma {:induction false} QueuedIs(q: seq<Queued>, es: seq<Exception>)
    ensures q <= Enqueue(q, es)
    ensures forall i :: |q| <= i < |Enqueue(q, es)| ==>
              Enqueue(q, es)[i].open && Enqueue(q, es)[i].exception in es
              && forall x :: x in q && x.open ==> DedupeKey(x.exception) != DedupeKey(Enqueue(q, es)[i].exception)
  {
    if es != [] {
      var init, e := es[..|es| - 1], es[|es| - 1];
      QueuedIs(q, init);
      var r := Enqueue(q, init);
      assert forall f :: f in init ==> f in es;
      if !Pending(r, DedupeKey(e)) {
        assert forall x :: x in q ==> x in r;
      }
    }
  }

  /** The tables after a committed run: settlements and lines stand; the plan's matches follow the recorded ones;
      exactly the matched notes are closed; each free assessment is linked to the first planned settlement of its
      event; and the plan's exceptions follow in the queue unless their key was OPEN. */
  lemma CommitLeaves(t: Tables, asOf: string)
    requires StoreOk(t) && Persist(t, PlanOf(Load(t, asOf))).Some?
    ensures var plan, t' := PlanOf(Load(t, asOf)), Persist(t, PlanOf(Load(t, asOf))).value;
            && t'.settlements == t.settlements && t'.lines == t.lines && t'.matches == t.matches + plan.matches
            && |t'.notes| == |t.notes| && |t'.intake| == |t.intake|
            && (forall i :: 0 <= i < |t.notes| ==>
                  && t'.notes[i].note == t.notes[i].note
                  && (t'.notes[i].open <==>
                        t.notes[i].open && forall m :: m in plan.matches ==> m.noteId != t.notes[i].note.id))
            && (forall i :: 0 <= i < |t.intake| ==> LinkedRight(t.intake[i], t'.intake[i], plan.intakeMatches))
            && t.queue <= t'.queue
            && (forall i :: |t.queue| <= i < |t'.queue| ==>
                  t'.queue[i].open && t'.queue[i].exception in plan.exceptions
                  && forall x :: x in t.queue && x.open ==> DedupeKey(x.exception) != DedupeKey(t'.queue[i].exception))
            && (forall e :: e in plan.exceptions ==>
                  exists x :: x in t'.queue && x.open && DedupeKey(x.exception) == DedupeKey(e))
  {
    var plan := PlanOf(Load(t, asOf));
    LoadIsWellKeyed(t, asOf);
    LoadIsUnmatched(t, asOf);
    MatchesInjective(Load(t, asOf));
    InsertExactly(t.matches, plan.matches);
    SettledIds(plan.matches);
    LinksAreFirst(t.intake, plan.intakeMatches);
    QueuedIs(t.queue, plan.exceptions);
    forall e | e in plan.exceptions ensures Pending(Enqueue(t.queue, plan.exceptions), DedupeKey(e)) {
      QueueHoldsPlan(t.queue, plan.exceptions, DedupeKey(e));
    }
  }
}
