/** The orchestrator and the officer resolver as the imperative code they are: each method makes the
    store and ledger calls in the source's order and branches on their answers.

    Every call goes through Backend.Perform, which lets any number of other processes run first and
    then performs the call as one atomic step that may fail before or after its effect. The ghost
    history is the run so far; each method is proved to be the program TwoPhase gives it, so its
    contract holds under every interleaving. */
module Orchestration {
  import opened Wrappers
  import opened Intents
  import opened Ledger
  import opened TwoPhase
  import opened TwoPhaseSafety
  import opened TwoPhaseTheorems
  import opened TwoPhaseProgress
  import opened TwoPhaseReads

  /** The intent table and the ledger as one process sees them. */
  class Backend {
    const cfg: Config
    var db: Db
    ghost var worlds: seq<World>
    ghost var steps: seq<Step>

    ghost predicate Valid()
      reads this
    {
      Behaviour(cfg, worlds, steps) && worlds[|worlds| - 1].db == db
    }

    /** Process pid as the run so far left it. */
    ghost predicate At(pid: nat, p: Proc)
      reads this
      requires Valid()
    {
      pid in worlds[|worlds| - 1].procs && worlds[|worlds| - 1].procs[pid] == p
    }

    constructor (cfg: Config)
      ensures Valid() && this.cfg == cfg
    {
      this.cfg := cfg;
      db := Db(map[], Books(map[], map[], map[], map[]));
      worlds := [World(Db(map[], Books(map[], map[], map[], map[])), map[])];
      steps := [];
    }

    /** Other processes, people and the clock take any number of steps. */
    method Interfere(ghost pid: nat, ghost p: Proc)
      requires Valid() && At(pid, p)
      modifies this
      ensures Valid() && old(worlds) <= worlds && At(pid, p)
    {
    }

    /** One atomic call on behalf of process pid, whose program is at exactly this call. */
    method Perform(ghost pid: nat, ghost p: Proc, call: Call) returns (r: Reply)
      requires Valid() && At(pid, p) && p.Work? && call == CallAt(p)
      modifies this
      ensures Valid() && old(worlds) <= worlds && At(pid, Advance(cfg, p, r))
    {
      Interfere(pid, p);
      ghost var w := worlds[|worlds| - 1];
      HonestIsPossible(db, call);
      var honest := Honest(db, call);
      r := honest.1;
      if * {
        r := Failure(Unavailable);
        if * {
          db := honest.0;
        }
      } else {
        db := honest.0;
      }
      ghost var w' := World(db, w.procs[pid := Advance(cfg, p, r)]);
      LostReplyIsPossible(w.db, call);
      AppendStep(cfg, worlds, steps, Run(pid, r), w');
      worlds, steps := worlds + [w'], steps + [Run(pid, r)];
    }

    /** A call enters the system as a new process. */
    ghost method Enter(task: Task, id: string) returns (pid: nat)
      requires Valid()
      modifies this`worlds, this`steps
      ensures Valid() && old(worlds) <= worlds && At(pid, Begin(task, id))
    {
      ghost var w := worlds[|worlds| - 1];
      pid := FreshAbove(w.procs.Keys);
      ghost var w' := w.(procs := w.procs[pid := Begin(task, id)]);
      AppendStep(cfg, worlds, steps, Start(pid, Begin(task, id)), w');
      worlds, steps := worlds + [w'], steps + [Start(pid, Begin(task, id))];
    }

    /** Create one transfer; "exists" counts as success only when the stored transfer has the same
        content. */
    method CreateTransfer(ghost pid: nat, ghost p: Proc, t: Transfer) returns (ok: bool, error: Error)
      requires Valid() && At(pid, p) && p.Work? && p.pc == Make(t)
      modifies this
      ensures Valid() && old(worlds) <= worlds
      ensures At(pid, if ok then AfterMake(p) else Trouble(p, error))
    {
      var r := Perform(pid, p, CreateOne(t));
      if r == Answer(Status.Created) {
        return true, Unavailable;
      }
      if r != Answer(Status.Exists) {
        return false, ErrorOf(r);
      }
      r := Perform(pid, p.(pc := Check(t)), Lookup(t.id));
      if r.Found? && SameContent(r.transfer, t) {
        return true, Unavailable;
      }
      return false, ErrorOf(r);
    }

    /** A call enters and reads the intent. */
    method Open(task: Task, id: string) returns (read: Result<Intent, Error>, ghost pid: nat)
      requires Valid() && Begin(task, id).pc.Read?
      modifies this
      ensures Valid() && old(worlds) <= worlds
      ensures read.Ok? ==> At(pid, AfterRead(Work(task, id, Read, read.value, false, false, false)))
      ensures read.Err? ==> At(pid, Fail(Begin(task, id), read.error))
    {
      pid := Enter(task, id);
      var r := Perform(pid, Begin(task, id), Get(id));
      read := if r.RowIs? then Ok(r.intent) else Err(ErrorOf(r));
    }

    /** Look one deterministic transfer up; a failure says nothing about it. */
    method Observe(ghost pid: nat, ghost p: Proc, id: string, ns: Namespace) returns (found: bool, failed: Option<Error>)
      requires Valid() && At(pid, p) && p.Work? && p.id == id && p.pc == Look(ns)
      modifies this
      ensures Valid() && old(worlds) <= worlds
      ensures failed.None? ==> At(pid, AfterLook(cfg, Note(p, ns, found), ns))
      ensures failed.Some? ==> At(pid, Trouble(p, failed.value))
    {
      var r := Perform(pid, p, Lookup(TransferId(ns, id)));
      found := r.Found?;
      failed := if r.Found? || r.Missing? then None else Some(ErrorOf(r));
    }

    /** Record that an intent needs reconciliation; the cause is reported either way. */
    method Reconcile(ghost pid: nat, ghost p: Proc, id: string, current: Intent) returns (error: Error)
      requires Valid() && At(pid, p) && p.Work? && p.pc == Park && p.id == id && p.current == current
      modifies this
      ensures Valid() && old(worlds) <= worlds && At(pid, Fail(p, error))
    {
      var r := Perform(pid, p, Move(id, current.version, ReconciliationRequired));
      error := ErrorOf(r);
    }

    /** The last leg of a money call: create the transfer unless it was found, then record the state it
        proves; any failure parks the intent for reconciliation. */
    method Conclude(ghost pid: nat, ghost p: Proc, id: string, current: Intent, transfer: Option<Transfer>, next: State)
      returns (r: Result<Intent, Error>)
      requires Valid() && At(pid, p) && p.Work? && p.id == id && p.current == current
      requires !p.task.ReconcileObserved? && !p.task.ResolveOfficer?
      requires p.pc == if transfer.Some? then Make(transfer.value) else Record(next)
      requires transfer.Some? ==> AfterMake(p) == p.(pc := Record(next))
      modifies this
      ensures Valid() && old(worlds) <= worlds && At(pid, p.(pc := Done(r)))
    {
      if transfer.Some? {
        var ok, cause := CreateTransfer(pid, p, transfer.value);
        if !ok {
          var e := Reconcile(pid, p.(pc := Park), id, current);
          return Err(e);
        }
      }
      var got := Perform(pid, p.(pc := Record(next)), Move(id, current.version, next));
      if !got.RowIs? {
        var e := Reconcile(pid, p.(pc := Park), id, current);
        return Err(e);
      }
      return Ok(got.intent);
    }
  }

  /** What every finished call guarantees: the process ended with exactly this result. */
  ghost predicate Finished(b: Backend, pid: nat, task: Task, id: string, r: Result<Intent, Error>)
    reads b
  {
    && b.Valid()
    && pid in b.worlds[|b.worlds| - 1].procs
    && var p := b.worlds[|b.worlds| - 1].procs[pid];
    && p.Work? && p.task == task && p.id == id && p.pc == Done(r)
  }

  class Orchestrator {
    const backend: Backend

    constructor (backend: Backend)
      ensures this.backend == backend
    {
      this.backend := backend;
    }

    /** Success means that the intent's own reservation is in the ledger; an intent read as RESERVED or POSTED
        is answered as it was read, and one read in any other state but APPROVED is refused. */
    method ReserveApproved(id: string) returns (r: Result<Intent, Error>, ghost pid: nat)
      requires backend.Valid()
      modifies backend
      ensures Finished(backend, pid, Task.ReserveApproved, id, r) && old(backend.worlds) <= backend.worlds
      ensures AnswersRead(backend.worlds[|backend.worlds| - 1].procs[pid])
      ensures r.Ok? ==>
                && r.value.state in {Reserved, Posted} && id in backend.db.rows
                && PendingId(id) in backend.db.books.transfers
                && ReservationOf(backend.cfg, backend.db.rows[id].intent.request, backend.db.books.transfers[PendingId(id)])
    {
      r, pid := ReserveProgram(id);
      AnswersWhatItRead(backend.cfg, backend.worlds, backend.steps, |backend.worlds| - 1, pid);
      if r.Ok? {
        SuccessIsTrue(backend.cfg, backend.worlds, backend.steps, |backend.worlds| - 1, pid);
      }
    }

    method ReserveProgram(id: string) returns (r: Result<Intent, Error>, ghost pid: nat)
      requires backend.Valid()
      modifies backend
      ensures Finished(backend, pid, Task.ReserveApproved, id, r) && old(backend.worlds) <= backend.worlds
    {
      var read;
      read, pid := backend.Open(Task.ReserveApproved, id);
      if read.Err? {
        return read, pid;
      }
      var current := read.value;
      if current.state == Reserved || current.state == Posted {
        return Ok(current), pid;
      }
      if current.state != Approved {
        return Err(NotReady), pid;
      }
      ghost var p := Work(Task.ReserveApproved, id, Ask, current, false, false, false);
      var got := backend.Perform(pid, p, Move(id, current.version, ReservationRequested));
      if !got.RowIs? {
        return Err(ErrorOf(got)), pid;
      }
      r := ReserveRequested(pid, id, got.intent);
    }

    /** The reservation itself, made by the one process whose request was recorded. */
    method ReserveRequested(ghost pid: nat, id: string, requested: Intent) returns (r: Result<Intent, Error>)
      requires backend.Valid()
      requires backend.At(pid, AfterRequest(backend.cfg, Work(Task.ReserveApproved, id, Ask, requested, false, false, false)))
      modifies backend
      ensures Finished(backend, pid, Task.ReserveApproved, id, r) && old(backend.worlds) <= backend.worlds
    {
      var debit := ParseId(backend.cfg, requested.request.debitAccount);
      var credit := ParseId(backend.cfg, requested.request.creditAccount);
      if debit.None? || credit.None? {
        var e := backend.Reconcile(pid, Work(Task.ReserveApproved, id, Park, requested, false, false, false), id, requested);
        return Err(e);
      }
      ghost var p := Work(Task.ReserveApproved, id, Look(PendingNs), requested, false, false, false);
      var found, failed := backend.Observe(pid, p, id, PendingNs);
      var valid := ValidTransfer(debit.value, credit.value, requested.request.amount);
      p := p.(pendingSeen := found);
      if failed.Some? || (!found && !valid) {
        p := p.(pendingSeen := failed.None? && found);
        var e := backend.Reconcile(pid, p.(pc := Park), id, requested);
        return Err(e);
      }
      var t := None;
      if !found {
        t := Some(ReserveTransfer(id, debit.value, credit.value, requested.request.amount, backend.cfg.ledger, backend.cfg.code));
      }
      p := p.(pc := if found then Record(Reserved) else Make(t.value));
      r := backend.Conclude(pid, p, id, requested, t, Reserved);
    }

    /** On success the intent is POSTED for good and its own money has moved. */
    method PostReserved(id: string) returns (r: Result<Intent, Error>, ghost pid: nat)
      requires backend.Valid()
      modifies backend
      ensures Finished(backend, pid, Task.PostReserved, id, r) && old(backend.worlds) <= backend.worlds
      ensures AnswersRead(backend.worlds[|backend.worlds| - 1].procs[pid])
      ensures r.Ok? ==>
                && id in backend.db.rows && backend.db.rows[id].intent.state == Posted
                && PostedAs(backend.cfg, backend.db.books, backend.db.rows[id].intent.request)
    {
      r, pid := PostProgram(id);
      AnswersWhatItRead(backend.cfg, backend.worlds, backend.steps, |backend.worlds| - 1, pid);
      if r.Ok? {
        SuccessIsTrue(backend.cfg, backend.worlds, backend.steps, |backend.worlds| - 1, pid);
      }
    }

    method PostProgram(id: string) returns (r: Result<Intent, Error>, ghost pid: nat)
      requires backend.Valid()
      modifies backend
      ensures Finished(backend, pid, Task.PostReserved, id, r) && old(backend.worlds) <= backend.worlds
    {
      var read;
      read, pid := backend.Open(Task.PostReserved, id);
      if read.Err? {
        return read, pid;
      }
      var current := read.value;
      if current.state == Posted {
        return Ok(current), pid;
      }
      if current.state != Reserved {
        return Err(NotReady), pid;
      }
      ghost var p := Work(Task.PostReserved, id, Look(VoidNs), current, false, false, false);
      var found, failed := backend.Observe(pid, p, id, VoidNs);
      if failed.Some? || found {
        p := p.(voidSeen := failed.None?);
        var e := backend.Reconcile(pid, p.(pc := Park), id, current);
        return Err(e), pid;
      }
      r := CloseBy(pid, p.(pc := Look(PostNs)), id, current, PostNs, PostTransfer(id, backend.cfg.ledger, backend.cfg.code), Posted);
    }

    /** On success the intent is VOIDED for good and no post exists or ever will. */
    method VoidReserved(id: string) returns (r: Result<Intent, Error>, ghost pid: nat)
      requires backend.Valid()
      modifies backend
      ensures Finished(backend, pid, Task.VoidReserved, id, r) && old(backend.worlds) <= backend.worlds
      ensures AnswersRead(backend.worlds[|backend.worlds| - 1].procs[pid])
      ensures r.Ok? ==>
                && id in backend.db.rows && backend.db.rows[id].intent.state == Voided
                && PostId(id) !in backend.db.books.transfers
    {
      r, pid := VoidProgram(id);
      AnswersWhatItRead(backend.cfg, backend.worlds, backend.steps, |backend.worlds| - 1, pid);
      if r.Ok? {
        SuccessIsTrue(backend.cfg, backend.worlds, backend.steps, |backend.worlds| - 1, pid);
      }
    }

    method VoidProgram(id: string) returns (r: Result<Intent, Error>, ghost pid: nat)
      requires backend.Valid()
      modifies backend
      ensures Finished(backend, pid, Task.VoidReserved, id, r) && old(backend.worlds) <= backend.worlds
    {
      var read;
      read, pid := backend.Open(Task.VoidReserved, id);
      if read.Err? {
        return read, pid;
      }
      var current := read.value;
      if current.state == Voided {
        return Ok(current), pid;
      }
      if current.state != Reserved {
        return Err(NotReady), pid;
      }
      ghost var p := Work(Task.VoidReserved, id, Look(PostNs), current, false, false, false);
      var found, failed := backend.Observe(pid, p, id, PostNs);
      if failed.Some? || found {
        p := p.(postSeen := failed.None?);
        var e := backend.Reconcile(pid, p.(pc := Park), id, current);
        return Err(e), pid;
      }
      r := CloseBy(pid, p.(pc := Look(VoidNs)), id, current, VoidNs, VoidTransfer(id, backend.cfg.ledger, backend.cfg.code), Voided);
    }

    /** Post or void unless that was already done, then record it. */
    method CloseBy(ghost pid: nat, ghost p: Proc, id: string, current: Intent, ns: Namespace, t: Transfer, next: State)
      returns (r: Result<Intent, Error>)
      requires backend.Valid() && backend.At(pid, p)
      requires p.Work? && p.id == id && p.current == current && p.pc == Look(ns)
      requires (p.task.PostReserved? && ns == PostNs && next == Posted) || (p.task.VoidReserved? && ns == VoidNs && next == Voided)
      requires t == if ns == PostNs then PostTransfer(id, backend.cfg.ledger, backend.cfg.code)
                    else VoidTransfer(id, backend.cfg.ledger, backend.cfg.code)
      modifies backend
      ensures Finished(backend, pid, p.task, id, r) && old(backend.worlds) <= backend.worlds
    {
      var found, failed := backend.Observe(pid, p, id, ns);
      if failed.Some? {
        var e := backend.Reconcile(pid, p.(pc := Park), id, current);
        return Err(e);
      }
      ghost var q := Note(p, ns, found).(pc := if found then Record(next) else Make(t));
      r := backend.Conclude(pid, q, id, current, if found then None else Some(t), next);
    }

    method ObserveAll(ghost pid: nat, id: string, current: Intent)
      returns (pendingFound: bool, postFound: bool, voidFound: bool, failed: Option<Error>)
      requires backend.Valid()
      requires backend.At(pid, Work(Task.ReconcileObserved, id, Look(PendingNs), current, false, false, false))
      modifies backend
      ensures failed.None? ==>
                && backend.Valid() && old(backend.worlds) <= backend.worlds
                && backend.At(pid, Work(Task.ReconcileObserved, id, Record(Observed(pendingFound, postFound, voidFound)),
                                        current, pendingFound, postFound, voidFound))
      ensures failed.Some? ==>
                Finished(backend, pid, Task.ReconcileObserved, id, Err(failed.value)) && old(backend.worlds) <= backend.worlds
    {
      ghost var p := Work(Task.ReconcileObserved, id, Look(PendingNs), current, false, false, false);
      postFound, voidFound := false, false;
      pendingFound, failed := backend.Observe(pid, p, id, PendingNs);
      if failed.Some? {
        return;
      }
      p := p.(pendingSeen := pendingFound, pc := Look(PostNs));
      postFound, failed := backend.Observe(pid, p, id, PostNs);
      if failed.Some? {
        return;
      }
      p := p.(postSeen := postFound, pc := Look(VoidNs));
      voidFound, failed := backend.Observe(pid, p, id, VoidNs);
    }

    /** Repairs an intent only from observed records; lookups that fail leave it as it is. */
    method ReconcileObserved(id: string) returns (r: Result<Intent, Error>, ghost pid: nat)
      requires backend.Valid()
      modifies backend
      ensures Finished(backend, pid, Task.ReconcileObserved, id, r) && old(backend.worlds) <= backend.worlds
    {
      var read;
      read, pid := backend.Open(Task.ReconcileObserved, id);
      if read.Err? {
        return read, pid;
      }
      var current := read.value;
      if current.state != ReconciliationRequired {
        return Err(NotReady), pid;
      }
      var pendingFound, postFound, voidFound, failed := ObserveAll(pid, id, current);
      if failed.Some? {
        return Err(failed.value), pid;
      }
      var next := Ambiguous;
      if postFound && !voidFound {
        next := Posted;
      } else if voidFound && !postFound {
        next := Voided;
      } else if pendingFound && !postFound && !voidFound {
        next := Reserved;
      }
      ghost var p := Work(Task.ReconcileObserved, id, Record(next), current, pendingFound, postFound, voidFound);
      var got := backend.Perform(pid, p, Move(id, current.version, next));
      r := if got.RowIs? then Ok(got.intent) else Err(ErrorOf(got));
    }
  }

  class Resolver {
    const backend: Backend

    constructor (backend: Backend)
      ensures this.backend == backend
    {
      this.backend := backend;
    }

    /** The officer's disposition of an AMBIGUOUS intent: back to reconciliation, or VOIDED after the
        ledger has been asked for evidence to the contrary. */
    method ResolveAmbiguous(id: string, expected: int, officer: string, resolution: Resolution)
      returns (r: Result<Intent, Error>, ghost pid: nat)
      requires backend.Valid()
      modifies backend
      ensures Finished(backend, pid, ResolveOfficer(expected, officer, resolution), id, r)
      ensures old(backend.worlds) <= backend.worlds
    {
      var task := ResolveOfficer(expected, officer, resolution);
      if resolution.Other? {
        pid := backend.Enter(task, id);
        return Err(InvalidResolution), pid;
      }
      var read;
      read, pid := backend.Open(task, id);
      if read.Err? {
        return read, pid;
      }
      var current := read.value;
      if current.state != Ambiguous {
        return Err(InvalidState), pid;
      }
      ghost var p := Work(task, id, Settle, current, false, false, false);
      if resolution.Close? {
        var cause := ReleaseReservation(pid, p.(pc := Look(PostNs)), id);
        if cause.Some? {
          return Err(cause.value), pid;
        }
        p := backend.worlds[|backend.worlds| - 1].procs[pid];
      }
      var got := backend.Perform(pid, p, Resolve(id, expected, officer, resolution));
      r := if got.RowIs? then Ok(got.intent) else Err(ErrorOf(got));
    }

    /** VOID asks the ledger first: a post means the money moved and refuses; an outstanding reservation
        is voided before the state is recorded. */
    method ReleaseReservation(ghost pid: nat, ghost p0: Proc, id: string) returns (cause: Option<Error>)
      requires backend.Valid() && backend.At(pid, p0)
      requires p0.Work? && p0.task.ResolveOfficer? && p0.id == id && p0.pc == Look(PostNs) && !p0.postSeen
      modifies backend
      ensures backend.Valid() && old(backend.worlds) <= backend.worlds
      ensures pid in backend.worlds[|backend.worlds| - 1].procs
      ensures var q := backend.worlds[|backend.worlds| - 1].procs[pid];
              && q.Work? && q.task == p0.task && q.id == id
              && q.pc == (if cause.Some? then Done(Err(cause.value)) else Settle)
    {
      ghost var p := p0;
      var postFound, failed := backend.Observe(pid, p, id, PostNs);
      if failed.Some? {
        return failed;
      }
      if postFound {
        return Some(ResolutionRejected);
      }
      p := p.(pc := Look(PendingNs));
      var pendingFound;
      pendingFound, failed := backend.Observe(pid, p, id, PendingNs);
      if failed.Some? {
        return failed;
      }
      cause := VoidIfPending(pid, p.(pendingSeen := pendingFound, pc := Look(VoidNs)), id, pendingFound);
    }

    method VoidIfPending(ghost pid: nat, ghost p: Proc, id: string, pendingFound: bool) returns (cause: Option<Error>)
      requires backend.Valid() && backend.At(pid, p)
      requires p.Work? && p.task.ResolveOfficer? && p.id == id && p.pc == Look(VoidNs) && !p.postSeen && p.pendingSeen == pendingFound
      modifies backend
      ensures backend.Valid() && old(backend.worlds) <= backend.worlds
      ensures pid in backend.worlds[|backend.worlds| - 1].procs
      ensures var q := backend.worlds[|backend.worlds| - 1].procs[pid];
              && q.Work? && q.task == p.task && q.id == id
              && q.pc == (if cause.Some? then Done(Err(cause.value)) else Settle)
    {
      var voidFound, failed := backend.Observe(pid, p, id, VoidNs);
      if failed.Some? {
        return failed;
      }
      if pendingFound && !voidFound {
        cause := VoidOutstanding(pid, p.(voidSeen := voidFound, pc := Make(VoidTransfer(id, backend.cfg.ledger, backend.cfg.code))), id);
        return cause;
      }
      return None;
    }

    method VoidOutstanding(ghost pid: nat, ghost p: Proc, id: string) returns (cause: Option<Error>)
      requires backend.Valid() && backend.At(pid, p)
      requires p.Work? && p.task.ResolveOfficer? && p.id == id
      requires p.pc == Make(VoidTransfer(id, backend.cfg.ledger, backend.cfg.code))
      modifies backend
      ensures backend.Valid() && old(backend.worlds) <= backend.worlds
      ensures backend.At(pid, p.(pc := if cause.Some? then Done(Err(cause.value)) else Settle))
    {
      var ok, error := backend.CreateTransfer(pid, p, VoidTransfer(id, backend.cfg.ledger, backend.cfg.code));
      cause := if ok then None else Some(error);
    }
  }

  lemma LostReplyIsPossible(db: Db, c: Call)
    ensures Exec(db, c, Failure(Unavailable), db)
    ensures Exec(db, c, Failure(Unavailable), Honest(db, c).0)
  {
  }
}
