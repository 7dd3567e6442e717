/**
  What the calls of the task manager answer, and how a task gets from its start to its end
  (`src/mewcode/subagents/tasks.py`).
*/
module TaskProgress {
  import opened Wrappers
  import opened TaskManager
  import O = TaskOutcomes
  import P = CapacityPool

  // --- Starting -----------------------------------------------------------------------

  /** Task `id` is new in `n`, with its record, its coroutine and the slot `token`; nothing else differs. */
  predicate Registers(m: Manager, n: Manager, id: Id, placement: Placement, token: nat) {
    && n.records.Keys == m.records.Keys + {id} && n.drives.Keys == m.drives.Keys + {id}
    && n.records[id].status.Registered? && n.records[id].placement == placement && n.records[id].lease == Some(token)
    && !n.records[id].hasDriver && !n.records[id].cancelRequested && !n.records[id].cancelForwarded
    && !n.records[id].timeoutTriggered && !n.records[id].notificationPending && n.drives[id].Created?
    && (forall i :: i in m.records && i != id ==> n.records[i] == m.records[i])
    && (forall i :: i in m.drives && i != id ==> n.drives[i] == m.drives[i])
    && n.foreground == (if placement.Foreground? then Some(id) else m.foreground)
    && n == m.(pool := n.pool, records := n.records, drives := n.drives, foreground := n.foreground)
  }

  /** What `start` demands of the table and of the pool. */
  ghost predicate MayStart(cfg: Config, m: Manager, id: Id, placement: Placement) {
    && !m.closed && !m.resetting && |ActiveIds(m.records)| < cfg.maxActive
    && (placement.Foreground? ==> forall i :: !IsForeground(m.records, i))
    && id !in m.records && P.Welcome(m.pool, TaskOwner(id)) && |m.pool.active| < m.pool.limit
  }

  /**
    A start works if and only if all demands are met; then it registers the task with a new slot, otherwise
    nothing changes.
  */
  lemma StartsIff(cfg: Config, m: Manager, id: Id, placement: Placement)
    requires RecordsInv(m) && P.Inv(m.pool) && P.Busy(m.pool)
    ensures P.WaitersInRange(m.pool)
    ensures
      var (n, r) := Start(cfg, m, id, placement);
      && (r.Ok? <==> MayStart(cfg, m, id, placement))
      && (r.Ok? ==> Registers(m, n, id, placement, r.value) && P.Leased(m.pool, n.pool, TaskOwner(id), r.value))
      && (r.Err? ==> n == m)
  {
    hide *;
    PoolFacts(m.pool, TaskOwner(id));
    RefusedWith(cfg, m, id, placement);
    StartIs(cfg, m, id, placement);
    if StartCheck(cfg, m, id, placement).None? && P.TryAcquire(m.pool, TaskOwner(id)).1.Ok? {
      var (pool, granted) := P.TryAcquire(m.pool, TaskOwner(id));
      if granted.value.Some? { RegistrationMeans(m, pool, id, placement, granted.value.value); }
    }
    MayStartIs(cfg, m, id, placement);
  }

  lemma MayStartIs(cfg: Config, m: Manager, id: Id, placement: Placement)
    requires StartCheck(cfg, m, id, placement).None? <==>
               && id !in m.records && !(placement.Foreground? && exists i :: IsForeground(m.records, i))
               && !(|ActiveIds(m.records)| >= cfg.maxActive) && !m.resetting && !m.closed
    ensures MayStart(cfg, m, id, placement) <==>
              && StartCheck(cfg, m, id, placement).None?
              && P.Welcome(m.pool, TaskOwner(id)) && |m.pool.active| < m.pool.limit
  {
    hide StartCheck, P.Welcome, TaskOwner, IsForeground, ActiveIds;
  }

  /** A start passes its checks and then takes a slot of the pool. */
  lemma StartIs(cfg: Config, m: Manager, id: Id, placement: Placement)
    requires P.WaitersInRange(m.pool)
    ensures
      var (n, r) := Start(cfg, m, id, placement);
      var (pool, granted) := P.TryAcquire(m.pool, TaskOwner(id));
      && (StartCheck(cfg, m, id, placement).None? && granted.Ok? && granted.value.Some? ==>
            n == Registration(m.(pool := pool), id, placement, granted.value.value) && r == Ok(granted.value.value))
      && (!(StartCheck(cfg, m, id, placement).None? && granted.Ok? && granted.value.Some?) ==> n == m && r.Err?)
  {
    hide StartCheck, P.TryAcquire, TaskOwner, P.WaitersInRange, Registration;
    if StartCheck(cfg, m, id, placement).None? {
      var (pool, granted) := P.TryAcquire(m.pool, TaskOwner(id));
      match granted
      case Err(e) => assert Start(cfg, m, id, placement) == (m, Err(PoolError(e)));
      case Ok(None) => assert Start(cfg, m, id, placement) == (m, Err(ActiveLimit));
      case Ok(Some(token)) =>
    }
  }

  lemma RegistrationMeans(m: Manager, pool: P.Pool, id: Id, placement: Placement, token: nat)
    ensures
      var n := Registration(m.(pool := pool), id, placement, token);
      Registers(m, n, id, placement, token) && n.pool == pool
  {
  }

  lemma PoolFacts(p: P.Pool, owner: P.Owner)
    requires P.Inv(p) && P.Busy(p)
    ensures P.WaitersInRange(p)
    ensures
      var (q, r) := P.TryAcquire(p, owner);
      && ((r.Ok? && r.value.Some?) <==> P.Welcome(p, owner) && |p.active| < p.limit)
      && (r.Ok? && r.value.Some? ==> P.Leased(p, q, owner, r.value.value))
      && (r.Err? || r.value.None? ==> q == p)
  {
    InRange(p);
    hide P.Inv, P.Busy, P.Welcome, P.Leased, P.TryAcquire, P.Acquire, P.WaitersInRange;
    P.RefusedIff(p, owner);
    if P.Welcome(p, owner) { P.GrantedIff(p, owner); }
  }

  lemma InRange(p: P.Pool)
    requires P.Inv(p)
    ensures P.WaitersInRange(p)
  {
  }

  /** Which check refuses a start: the first of five that applies. */
  lemma RefusedWith(cfg: Config, m: Manager, id: Id, placement: Placement)
    requires RecordsInv(m)
    ensures
      var refused := StartCheck(cfg, m, id, placement);
      var full, bound := |ActiveIds(m.records)| >= cfg.maxActive,
        placement.Foreground? && exists i :: IsForeground(m.records, i);
      && (refused == Some(ManagerClosed) <==> m.closed)
      && (refused == Some(ManagerResetting) <==> m.resetting && !m.closed)
      && (refused == Some(ActiveLimit) <==> full && !m.resetting && !m.closed)
      && (refused == Some(ForegroundBound) <==> bound && !full && !m.resetting && !m.closed)
      && (refused == Some(DuplicateId) <==> id in m.records && !bound && !full && !m.resetting && !m.closed)
      && (refused.None? <==> id !in m.records && !bound && !full && !m.resetting && !m.closed)
  {
    hide TasksInv, ActiveIds, IsForeground;
    assert m.foreground.Some? <==> exists i :: IsForeground(m.records, i) by {
      if m.foreground.Some? { assert IsForeground(m.records, m.foreground.value); }
    }
  }

  // --- Cancelling and detaching ----------------------------------------------------------

  /** Only the record of `id` differs, in nothing but what `r` says. */
  predicate OnlyRecord(m: Manager, n: Manager, id: Id, r: Record) {
    n.records == m.records[id := r]
        && n == m.(records := n.records, cancellers := n.cancellers, foreground := n.foreground)
  }

  /**
    What `cancel` answers, and that only an accepted request changes anything: it marks the record and tells
    the driver.
  */
  lemma CancelAnswers(m: Manager, id: Id, sweep: bool)
    ensures
      var (n, r) := CancelRequest(m, id, sweep);
      && (r.NotFound? <==> id !in m.records)
      && (r.AlreadyTerminal? <==> id in m.records && !m.records[id].Active())
      && (r.AlreadyRequested? <==>
            id in m.records && m.records[id].Active()
            && (m.records[id].cancelRequested || m.records[id].timeoutTriggered))
      && (!r.Requested? ==> n == m)
      && (r.Requested? ==>
            var old_, new_ := m.records[id], n.records[id];
            && OnlyRecord(m, n, id, new_) && new_.cancelRequested && (old_.hasDriver ==> new_.cancelForwarded)
            && new_ == old_.(cancelRequested := true, cancelForwarded := new_.cancelForwarded)
            && n.foreground == m.foreground && n.cancellers == m.cancellers[id := Canceller(sweep)])
  {
  }

  /** A task is detached if and only if it is the active foreground task; it runs on in the background. */
  lemma DetachesIff(m: Manager, id: Id)
    requires RecordsInv(m)
    ensures
      var (n, detached) := Detach(m, id);
      && (detached <==> IsForeground(m.records, id))
      && (!detached ==> n == m)
      && (detached ==>
            && OnlyRecord(m, n, id, m.records[id].(placement := Background)) && n.foreground.None?
            && n.cancellers == m.cancellers)
  {
    hide TasksInv;
  }

  // --- Closing -------------------------------------------------------------------------------

  /**
    A reset begins, in an open manager that is not resetting, by refusing starts and waiting for the active tasks;
    closing does it once and for all. A caller of `cancel` that gives up only leaves, unless a reset made it.
  */
  lemma ClosingMeans(cfg: Config, m: Manager, id: Id, placement: Placement)
    ensures
      var r, c, a := BeginReset(m), BeginClose(m), AbandonCancel(m, id);
      && (m.closed || m.resetting ==> r == m)
      && (!m.closed && !m.resetting ==>
            r.resetting && r.clearing && r == m.(resetting := true, clearing := true, sweep := r.sweep)
            && forall i :: i in r.sweep <==> i in m.records && m.records[i].Active())
      && (m.closed ==> c == m)
      && (!m.closed ==>
            c.closed && c.resetting && c == m.(closed := true, resetting := true, closing := c.closing)
            && forall i :: i in c.closing <==> i in m.records && m.records[i].Active())
      && StartCheck(cfg, r, id, placement) == Some(if m.closed then ManagerClosed else ManagerResetting)
      && StartCheck(cfg, c, id, placement) == Some(ManagerClosed)
      && a == m.(cancellers := a.cancellers)
      && a.cancellers == if id in m.cancellers && !m.cancellers[id].sweep then m.cancellers - {id} else m.cancellers
  {
  }

  // --- The life of a task ------------------------------------------------------------------

  /** What the coroutine of a task does is the step of the event. */
  lemma StepsOf(cfg: Config, m: Manager, id: Id, outcome: Status, reported: Option<Status>)
    requires P.WaitersInRange(m.pool)
    ensures Step(cfg, m, Begin(id)) == DriveBegin(m, id) && Step(cfg, m, Attach(id)) == AttachDriver(m, id)
    ensures Step(cfg, m, Ends(id, outcome)) == ExecutionEnds(m, id, outcome)
    ensures Step(cfg, m, DeadlinePasses(id)) == Deadline(m, id) && Step(cfg, m, Stopped(id)) == StopDone(m, id)
    ensures Step(cfg, m, Finish(id, reported)) == DriveCommit(m, id, reported)
  {
    hide *;
    FirstSteps(cfg, m, id);
    LateSteps(cfg, m, id);
    LastSteps(cfg, m, id, outcome, reported);
  }

  lemma FirstSteps(cfg: Config, m: Manager, id: Id)
    requires P.WaitersInRange(m.pool)
    ensures Step(cfg, m, Begin(id)) == DriveBegin(m, id) && Step(cfg, m, Attach(id)) == AttachDriver(m, id)
  {
    hide P.WaitersInRange, P.Step, P.CloseLease, Start, IdFree, Foreign, DriveBegin, AttachDriver, ExecutionEnds;
    hide Deadline, StopDone, HardCancel, DriveCommit, CancelRequest, CancelCommit, AbandonCancel, CloseTaken, Detach;
    hide MarkDelivered, BeginReset, FinishReset, BeginClose, RecordsInv, LeaseInv;
  }

  lemma LateSteps(cfg: Config, m: Manager, id: Id)
    requires P.WaitersInRange(m.pool)
    ensures Step(cfg, m, DeadlinePasses(id)) == Deadline(m, id) && Step(cfg, m, Stopped(id)) == StopDone(m, id)
  {
    hide P.WaitersInRange, P.Step, P.CloseLease, Start, IdFree, Foreign, DriveBegin, AttachDriver, ExecutionEnds;
    hide Deadline, StopDone, HardCancel, DriveCommit, CancelRequest, CancelCommit, AbandonCancel, CloseTaken, Detach;
    hide MarkDelivered, BeginReset, FinishReset, BeginClose, RecordsInv, LeaseInv;
  }

  lemma LastSteps(cfg: Config, m: Manager, id: Id, outcome: Status, reported: Option<Status>)
    requires P.WaitersInRange(m.pool)
    ensures Step(cfg, m, Ends(id, outcome)) == ExecutionEnds(m, id, outcome)
    ensures Step(cfg, m, Finish(id, reported)) == DriveCommit(m, id, reported)
  {
    hide P.WaitersInRange, P.Step, P.CloseLease, Start, IdFree, Foreign, DriveBegin, AttachDriver, ExecutionEnds;
    hide Deadline, StopDone, HardCancel, DriveCommit, CancelRequest, CancelCommit, AbandonCancel, CloseTaken, Detach;
    hide MarkDelivered, BeginReset, FinishReset, BeginClose, RecordsInv, LeaseInv;
  }

  /** Only the coroutine and the record of `id` differ, and neither goes away. */
  predicate Moves(m: Manager, n: Manager, id: Id) {
    && id in n.records && id in n.drives
    && n == m.(records := m.records[id := n.records[id]], drives := m.drives[id := n.drives[id]])
  }

  /** A coroutine begins by marking its record as running, unless its cancellation was requested. */
  lemma BeginMoves(m: Manager, id: Id)
    requires id in m.records && id in m.drives && m.drives[id].Created?
    ensures
      var n, r := DriveBegin(m, id), m.records[id];
      && Moves(m, n, id) && n.drives[id].Executing?
      && n.records[id] == r.(status := if r.cancelRequested then r.status else Running)
  {
  }

  /** The driver is attached once, and told of a cancellation that came before it. */
  lemma AttachMoves(m: Manager, id: Id)
    requires id in m.records && id in m.drives && m.drives[id].Executing?
    ensures
      var n, r := AttachDriver(m, id), m.records[id];
      && Moves(m, n, id) && n.drives[id].Executing? && n.records[id].hasDriver
      && (r.hasDriver ==> n == m)
      && (!r.hasDriver ==>
            n.records[id] == r.(hasDriver := true, cancelForwarded := r.cancelRequested || r.cancelForwarded))
  {
  }

  /** An execution that ends in time changes no record; its outcome waits in the `finally` block. */
  lemma EndMoves(m: Manager, id: Id, outcome: Status)
    requires id in m.records && id in m.drives && m.drives[id].Executing?
    ensures
      var n := ExecutionEnds(m, id, outcome);
      Moves(m, n, id) && n.records == m.records && n.drives[id] == Closing(outcome, false)
  {
  }

  /** A deadline counts as a timeout unless a cancellation was requested before it. */
  lemma DeadlineMoves(m: Manager, id: Id)
    requires id in m.records && id in m.drives && m.drives[id].Executing?
    ensures
      var late, r := Deadline(m, id), m.records[id];
      && Moves(m, late, id) && late.drives[id] == Stopping(!r.cancelRequested)
      && late.records[id] == r.(timeoutTriggered := r.timeoutTriggered || !r.cancelRequested)
  {
  }

  /** Stopping the execution ends it as failed when it timed out, as cancelled otherwise. */
  lemma StopMoves(m: Manager, id: Id)
    requires id in m.records && id in m.drives && m.drives[id].Stopping?
    ensures
      var n, timedOut := StopDone(m, id), m.drives[id].timedOut;
      && Moves(m, n, id) && n.records == m.records
      && n.drives[id] == Closing(if timedOut then Failed else Cancelled, timedOut)
  {
  }

  /**
    A coroutine can be cancelled only by someone who waits for it. At its execution it goes on to its `finally`
    block as cancelled, still knowing of a timeout; anywhere else it ends at once, and no record changes.
  */
  lemma HardCancelMoves(m: Manager, id: Id)
    requires id in m.drives
    ensures
      var n, waited := HardCancel(m, id), id in m.cancellers || id in m.sweep || id in m.closing;
      && n == m.(drives := m.drives[id := n.drives[id]])
      && (!waited ==> n == m)
      && (waited ==>
            match m.drives[id]
            case Executing => n.drives[id] == Closing(Cancelled, false)
            case Stopping(timedOut) => n.drives[id] == Closing(Cancelled, timedOut)
            case _ => n.drives[id].Ended?)
  {
  }

  /**
    A task that has not begun comes to its end by the steps of its coroutine alone: it runs, gets a driver, its
    execution ends, and it takes the outcome, or what the driver reports.
  */
  lemma TaskEnds(cfg: Config, m: Manager, id: Id, outcome: Status, reported: Option<Status>)
    requires P.WaitersInRange(m.pool) && RecordsInv(m) && id in m.records && id in m.drives && m.drives[id].Created?
    requires m.records[id].Active() && !m.records[id].cancelRequested
    ensures
      var begun := Step(cfg, m, Begin(id));
      && begun.pool == m.pool && id in begun.records && begun.records[id].status.Running?
      && var attached := Step(cfg, begun, Attach(id));
         && attached.pool == m.pool && id in attached.records && attached.records[id].hasDriver
         && var ended := Step(cfg, attached, Ends(id, outcome));
            && ended.pool == m.pool
            && var n := Step(cfg, ended, Finish(id, reported));
               && id in n.records && n.drives[id].Ended?
               && n.records[id].status == O.Settled(if reported.Some? then reported.value else outcome)
  {
    hide *;
    StepsOf(cfg, m, id, outcome, reported);
    StepKeepsRecords(cfg, m, Begin(id));
    BeginMoves(m, id);
    var begun := DriveBegin(m, id);
    MovesOn(m, begun, id);
    StepsOf(cfg, begun, id, outcome, reported);
    StepKeepsRecords(cfg, begun, Attach(id));
    AttachMoves(begun, id);
    var attached := AttachDriver(begun, id);
    MovesOn(begun, attached, id);
    StepsOf(cfg, attached, id, outcome, reported);
    StepKeepsRecords(cfg, attached, Ends(id, outcome));
    EndMoves(attached, id, outcome);
    var ended := ExecutionEnds(attached, id, outcome);
    MovesOn(attached, ended, id);
    StepsOf(cfg, ended, id, outcome, reported);
    StillActive(m.records[id], begun.records[id], attached.records[id]);
    O.DriveEndsWith(ended, id, reported);
  }

  lemma StillActive(r: Record, begun: Record, attached: Record)
    requires begun == r.(status := Running)
    requires attached == begun
      || attached == begun.(hasDriver := true, cancelForwarded := begun.cancelRequested || begun.cancelForwarded)
    ensures begun.Active() && attached.Active() && attached.cancelRequested == r.cancelRequested
  {
  }

  lemma MovesOn(m: Manager, n: Manager, id: Id)
    requires Moves(m, n, id)
    ensures id in n.records && id in n.drives && n.pool == m.pool
  {
  }

  /**
    A working task that passes its deadline fails, whatever its driver reports, unless its cancellation was
    requested before: then it is cancelled, or completed if its driver reports that.
  */
  lemma TaskTimesOut(cfg: Config, m: Manager, id: Id, reported: Option<Status>)
    requires P.WaitersInRange(m.pool) && RecordsInv(m) && id in m.records && id in m.drives && m.drives[id].Executing?
    requires m.records[id].Active()
    ensures
      var late := Step(cfg, m, DeadlinePasses(id));
      && late.pool == m.pool
      && var stopped := Step(cfg, late, Stopped(id));
         && stopped.pool == m.pool
         && var n, asked := Step(cfg, stopped, Finish(id, reported)), m.records[id].cancelRequested;
            && id in n.records && n.drives[id].Ended?
            && (!asked ==> n.records[id].status.Failed?)
            && (asked ==> n.records[id].status == if reported == Some(Completed) then Completed else Cancelled)
  {
    hide *;
    StepsOf(cfg, m, id, Failed, reported);
    StepKeepsRecords(cfg, m, DeadlinePasses(id));
    DeadlineMoves(m, id);
    var late := Deadline(m, id);
    MovesOn(m, late, id);
    StepsOf(cfg, late, id, Failed, reported);
    StepKeepsRecords(cfg, late, Stopped(id));
    StopMoves(late, id);
    var stopped := StopDone(late, id);
    MovesOn(late, stopped, id);
    StepsOf(cfg, stopped, id, Failed, reported);
    assert stopped.records[id].Active() by { SameStatus(m.records[id], stopped.records[id]); }
    O.DriveEndsWith(stopped, id, reported);
    FailedSettles();
  }

  lemma SameStatus(r: Record, q: Record)
    requires q.status == r.status
    ensures q.Active() == r.Active()
  {
  }

  lemma FailedSettles()
    ensures O.Settled(Failed) == Failed
  {
  }

  // --- Notifications -------------------------------------------------------------------------

  /**
    When a notification is pending after a step: it was and was not delivered, or its task in the background
    just ended.
  */
  predicate PendingSince(m: Manager, e: Event, n: Manager, id: Id) {
    id in n.records ==>
      (n.records[id].notificationPending <==>
         && id in m.records
         && ((m.records[id].notificationPending && e != Deliver(id))
             || (m.records[id].Active() && !n.records[id].Active() && m.records[id].placement.Background?
                 && !m.resetting)))
  }

  /**
    Neither activity nor notification of any record differs, and only finished records may be gone or new ones
    come.
  */
  predicate SamePending(m: Manager, n: Manager) {
    forall i :: i in n.records && (i in m.records || n.records[i].notificationPending) ==>
      && i in m.records && n.records[i].notificationPending == m.records[i].notificationPending
      && (m.records[i].Active() ==> n.records[i].Active())
  }

  lemma SameIsPending(m: Manager, e: Event, n: Manager, id: Id)
    requires SamePending(m, n) && !e.Deliver?
    ensures PendingSince(m, e, n, id)
  {
  }

  /**
    A notification becomes pending exactly when its background task ends outside a reset, and stays until it is
    delivered.
  */
  lemma PendingIff(cfg: Config, m: Manager, e: Event, id: Id)
    requires P.WaitersInRange(m.pool) && RecordsInv(m)
    ensures PendingSince(m, e, Step(cfg, m, e), id)
  {
    hide *;
    if e.Deliver? {
      DeliverStep(cfg, m, e.id);
      DeliverClears(cfg, m, e.id, id);
    } else if e.Finish? {
      LastSteps(cfg, m, e.id, Failed, e.reported);
      FinishPends(m, e.id, e.reported, id);
    } else if e.CommitCancel? {
      CancelStep(cfg, m, e.id);
      CancelPends(m, e.id, id);
    } else {
      RestPends(cfg, m, e);
      SameIsPending(m, e, Step(cfg, m, e), id);
    }
  }

  lemma DeliverStep(cfg: Config, m: Manager, id: Id)
    requires P.WaitersInRange(m.pool)
    ensures Step(cfg, m, Deliver(id)) == MarkDelivered(cfg, m, id)
  {
    hide P.WaitersInRange, P.Step, P.CloseLease, Start, IdFree, Foreign, DriveBegin, AttachDriver, ExecutionEnds;
    hide Deadline, StopDone, HardCancel, DriveCommit, CancelRequest, CancelCommit, AbandonCancel, CloseTaken, Detach;
    hide MarkDelivered, BeginReset, FinishReset, BeginClose, RecordsInv, LeaseInv;
  }

  lemma CancelStep(cfg: Config, m: Manager, id: Id)
    requires P.WaitersInRange(m.pool)
    ensures Step(cfg, m, CommitCancel(id)) == CancelCommit(m, id)
  {
    hide P.WaitersInRange, P.Step, P.CloseLease, Start, IdFree, Foreign, DriveBegin, AttachDriver, ExecutionEnds;
    hide Deadline, StopDone, HardCancel, DriveCommit, CancelRequest, CancelCommit, AbandonCancel, CloseTaken, Detach;
    hide MarkDelivered, BeginReset, FinishReset, BeginClose, RecordsInv, LeaseInv;
  }

  lemma DeliverClears(cfg: Config, m: Manager, i: Id, id: Id)
    requires RecordsInv(m)
    ensures PendingSince(m, Deliver(i), MarkDelivered(cfg, m, i), id)
  {
    hide Evict, ForegroundInv, DriveOk;
    if i in m.records {
      var cleared := m.records[i].(notificationPending := false);
      EvictKeeps(cfg.retention, m.records[i := cleared], m.delivered + [i]);
    }
  }

  lemma FinishPends(m: Manager, i: Id, reported: Option<Status>, id: Id)
    requires RecordsInv(m)
    ensures PendingSince(m, Finish(i, reported), DriveCommit(m, i, reported), id)
  {
    hide FinalStatus, Outcome, ForegroundInv, DriveOk, IsForeground;
  }

  lemma CancelPends(m: Manager, i: Id, id: Id)
    requires RecordsInv(m)
    ensures PendingSince(m, CommitCancel(i), CancelCommit(m, i), id)
  {
    hide FinalStatus, ForegroundInv, DriveOk, IsForeground;
  }

  lemma RestPends(cfg: Config, m: Manager, e: Event)
    requires P.WaitersInRange(m.pool) && RecordsInv(m) && !e.Deliver? && !e.Finish? && !e.CommitCancel?
    ensures SamePending(m, Step(cfg, m, e))
  {
    hide *;
    if e.Begin? || e.Attach? {
      FirstSteps(cfg, m, e.id);
      FirstPends(m, e.id);
    } else if e.DeadlinePasses? {
      LateSteps(cfg, m, e.id);
      LatePends(m, e.id);
    } else if e.StartTask? {
      StartPends(cfg, m, e);
    } else if e.Cancel? || e.DetachTask? {
      AskedPends(cfg, m, e);
    } else if O.Idle(e) {
      if e.Pool? || e.CloseLease? {
        O.PoolIdles(cfg, m, e);
        SameRecords(m, Step(cfg, m, e));
      } else {
        IdleIs(e);
        O.TableIdles(cfg, m, e);
        if e.ResetClears? { ClearsPends(m); } else { SameRecords(m, Step(cfg, m, e)); }
      }
    } else {
      OtherEvents(e);
      O.DriveFlags(cfg, m, e);
      SameRecords(m, Step(cfg, m, e));
    }
  }

  lemma IdleIs(e: Event)
    requires O.Idle(e) && !e.Pool? && !e.CloseLease? && !e.Deliver?
    ensures e.Reset? || e.Close? || e.Abandon? || e.ResetClears?
  {
  }

  lemma OtherEvents(e: Event)
    requires !O.Idle(e) && !e.Finish? && !e.CommitCancel? && !e.Begin? && !e.Attach? && !e.DeadlinePasses?
    requires !e.StartTask? && !e.Cancel? && !e.DetachTask?
    ensures e.Ends? || e.Stopped? || e.CancelDrive?
  {
  }

  lemma SameRecords(m: Manager, n: Manager)
    requires n.records == m.records
    ensures SamePending(m, n)
  {
  }

  lemma ClearsPends(m: Manager)
    ensures SamePending(m, FinishReset(m))
  {
    hide SweepDone, RecordLeases;
  }

  lemma FirstPends(m: Manager, id: Id)
    ensures SamePending(m, DriveBegin(m, id)) && SamePending(m, AttachDriver(m, id))
  {
    hide SamePending;
    BeginPends(m, id);
    AttachPends(m, id);
  }

  lemma BeginPends(m: Manager, id: Id)
    ensures SamePending(m, DriveBegin(m, id))
  {
  }

  lemma AttachPends(m: Manager, id: Id)
    ensures SamePending(m, AttachDriver(m, id))
  {
  }

  lemma LatePends(m: Manager, id: Id)
    ensures SamePending(m, Deadline(m, id))
  {
  }

  lemma StartPends(cfg: Config, m: Manager, e: Event)
    requires P.WaitersInRange(m.pool) && RecordsInv(m) && e.StartTask?
    ensures SamePending(m, Step(cfg, m, e))
  {
    hide P.WaitersInRange, P.Step, P.CloseLease, P.TryAcquire, Foreign, DriveBegin, AttachDriver, ExecutionEnds;
    hide Deadline, StopDone, HardCancel, DriveCommit, CancelRequest, CancelCommit, AbandonCancel, CloseTaken, Detach;
    hide MarkDelivered, BeginReset, FinishReset, BeginClose, RecordsInv, TaskOwner, ActiveIds;
  }

  lemma AskedPends(cfg: Config, m: Manager, e: Event)
    requires P.WaitersInRange(m.pool) && (e.Cancel? || e.DetachTask?)
    ensures SamePending(m, Step(cfg, m, e))
  {
    hide P.WaitersInRange, P.Step, P.CloseLease, Start, IdFree, Foreign, DriveBegin, AttachDriver, ExecutionEnds;
    hide Deadline, StopDone, HardCancel, DriveCommit, CancelCommit, AbandonCancel, CloseTaken, CancelRequest, Detach;
    hide MarkDelivered, BeginReset, FinishReset, BeginClose, RecordsInv, LeaseInv, SamePending;
    SameRecords(m, m);
    match e
    case Cancel(id, sweep) => RequestPends(m, id, sweep);
    case DetachTask(id) => DetachPends(m, id);
  }

  lemma RequestPends(m: Manager, id: Id, sweep: bool)
    ensures SamePending(m, CancelRequest(m, id, sweep).0)
  {
  }

  lemma DetachPends(m: Manager, id: Id)
    ensures SamePending(m, Detach(m, id).0)
  {
  }
}
