/**
  The task manager as the program keeps it: tables changed in place under its lock.
  Each method is one critical section, takes the step of that name of `TaskManager` and keeps its
  invariants, from which follows what the method promises about foreground, status and slots.
*/
module SubagentTasks {
  import opened Wrappers
  import T = TaskManager
  import O = TaskOutcomes
  import P = CapacityPool
  import opened AgentCapacity

  /** The invariants of pool, records, foreground pointer and leases. */
  ghost predicate Sane(m: T.Manager) {
    P.Inv(m.pool) && P.Busy(m.pool) && T.RecordsInv(m) && T.LeaseInv(m)
  }

  lemma PoolOf(m: T.Manager)
    requires Sane(m)
    ensures P.Inv(m.pool) && P.Busy(m.pool) && P.WaitersInRange(m.pool)
  {
  }

  lemma TasksOf(m: T.Manager)
    requires Sane(m)
    ensures T.RecordsInv(m)
  {
  }

  lemma InitKeeps(pool: P.Pool)
    requires pool == P.Init(pool.limit) && P.Inv(pool) && P.Busy(pool)
    ensures Sane(T.Init(pool))
  {
    T.InitOk(pool);
  }

  /** A step of the manager that leaves the pool alone. */
  lemma StepKeeps(cfg: T.Config, m: T.Manager, e: T.Event)
    requires Sane(m) && P.WaitersInRange(m.pool) && T.Step(cfg, m, e).pool == m.pool
    ensures Sane(T.Step(cfg, m, e))
  {
    hide P.Inv, P.Busy, T.RecordsInv, T.LeaseInv, T.Step, P.WaitersInRange;
    T.StepOk(cfg, m, e);
  }

  /** What the invariants say of one task. */
  lemma Facts(m: T.Manager, id: T.Id)
    requires Sane(m)
    ensures m.foreground == Some(id) <==> T.IsForeground(m.records, id)
    ensures id in m.records ==>
      var r := m.records[id];
      && (r.Active() <==> r.lease.Some?) && !(r.cancelRequested && r.timeoutTriggered)
      && (r.cancelRequested && r.status.Terminal() ==> r.status.Cancelled? || r.status.Completed?)
      && (id in m.cancellers ==> r.cancelRequested)
  {
    hide T.LeaseInv, P.Inv, P.Busy;
  }

  class SubagentTaskManager {
    const config: T.Config
    const pool: AgentCapacityPool
    var records: map<T.Id, T.Record>
    var foreground: Option<T.Id>
    var resetting: bool
    var closed: bool
    var clearing: bool
    var drives: map<T.Id, T.Drive>
    var cancellers: map<T.Id, T.Canceller>
    var sweep: set<T.Id>
    var closing: set<T.Id>
    var taken: set<nat>
    ghost var dropped: set<nat>
    var delivered: seq<T.Id>

    ghost function View(): T.Manager
      reads this, pool
    {
      T.Manager(pool.View(), records, foreground, resetting, closed, clearing, drives, cancellers,
                sweep, closing, taken, dropped, delivered)
    }

    ghost predicate Valid()
      reads this, pool
    {
      Sane(View())
    }

    constructor (config: T.Config, pool: AgentCapacityPool)
      requires pool.Valid() && pool.View() == P.Init(pool.limit)
      ensures Valid() && View() == T.Init(pool.View()) && this.pool == pool && this.config == config
    {
      this.config, this.pool := config, pool;
      records, foreground := map[], None;
      resetting, closed, clearing := false, false, false;
      drives, cancellers, sweep, closing, taken, dropped, delivered := map[], map[], {}, {}, {}, {}, [];
      new;
      hide Sane, P.Inv, P.Busy, P.Init, T.RecordsInv, T.LeaseInv;
      InitKeeps(pool.View());
    }

    /** A foreground start goes on only when no foreground task is active. */
    method CheckStart(id: T.Id, placement: T.Placement) returns (refused: Option<T.StartError>)
      requires Valid()
      ensures refused == T.StartCheck(config, View(), id, placement)
      ensures refused.None? ==> id !in records && |T.ActiveIds(records)| < config.maxActive && !closed && !resetting
      ensures refused.None? && placement.Foreground? ==> forall i :: !T.IsForeground(records, i)
      ensures refused == Some(T.ForegroundBound) ==> placement.Foreground? && exists i :: T.IsForeground(records, i)
    {
      hide Sane, T.IsForeground, T.ActiveIds;
      forall i ensures foreground == Some(i) <==> T.IsForeground(records, i) { Facts(View(), i); }
      if closed {
        return Some(T.ManagerClosed);
      }
      if resetting {
        return Some(T.ManagerResetting);
      }
      if |T.ActiveIds(records)| >= config.maxActive {
        return Some(T.ActiveLimit);
      }
      if placement.Foreground? && foreground.Some? {
        return Some(T.ForegroundBound);
      }
      if id in records {
        return Some(T.DuplicateId);
      }
      return None;
    }

    method Start(id: T.Id, placement: T.Placement) returns (r: Result<nat, T.StartError>)
      requires Valid() && T.IdFree(View(), id)
      modifies this, pool
      ensures Valid() && (View(), r) == T.Start(config, old(View()), id, placement)
      ensures r.Ok? ==> id in records && records[id].lease == Some(r.value) && r.value in T.Slots(pool.View())
      ensures r.Ok? && placement.Foreground? ==> foreground == Some(id)
      ensures r.Err? ==> records == old(records) && foreground == old(foreground)
    {
      hide Sane, T.IdFree, T.Slots, P.Inv, P.Busy, P.WaitersInRange, T.IsForeground, T.ActiveIds;
      PoolOf(View());
      StartKeeps(config, View(), id, placement);
      hide T.StartCheck, P.TryAcquire, T.TaskOwner, AgentCapacityPool.OwnerOf, T.Text.Strip;
      var refused := CheckStart(id, placement);
      if refused.Some? {
        return Err(refused.value);
      }
      StripOfKind(id);
      RefusedUnchanged(pool.View(), T.TaskOwner(id));
      var granted := pool.TryAcquire("subagent", id);
      if granted.Err? {
        return Err(T.PoolError(granted.error));
      }
      if granted.value.None? {
        return Err(T.ActiveLimit);
      }
      Register(id, placement, granted.value.value);
      return Ok(granted.value.value);
    }

    /** The record of a new task and its driving coroutine. */
    method Register(id: T.Id, placement: T.Placement, token: nat)
      modifies this
      ensures View() == T.Registration(old(View()), id, placement, token)
    {
      var record := T.Record(T.Registered, placement, Some(token), false, false, false, false, false);
      records := records[id := record];
      if placement.Foreground? {
        foreground := Some(id);
      }
      drives := drives[id := T.Created];
    }

    /** A refused request leaves the pool as it was. */
    static lemma RefusedUnchanged(p: P.Pool, owner: P.Owner)
      requires P.WaitersInRange(p)
      ensures var (q, granted) := P.TryAcquire(p, owner); granted.Err? || granted.value.None? ==> q == p
    {
    }

    static lemma StripOfKind(id: T.Id)
      ensures AgentCapacityPool.OwnerOf("subagent", id) == T.TaskOwner(id)
    {
      assert T.Text.Strip("subagent") == "subagent";
    }

    /** The first critical section of `_drive`. */
    method BeginDrive(id: T.Id)
      requires Valid() && id in drives && drives[id] == T.Created
      modifies this
      ensures Valid() && View() == T.DriveBegin(old(View()), id)
      ensures id in old(records) && old(records)[id].status.Terminal() ==> records == old(records)
    {
      hide Sane;
      BeginKeeps(config, View(), id);
      if id !in records {
        drives := drives[id := T.Closing(T.Failed, false)];
        return;
      }
      if !records[id].cancelRequested {
        records := records[id := records[id].(status := T.Running)];
      }
      drives := drives[id := T.Executing];
    }

    /** The deadline fired before the execution ended. */
    method PassDeadline(id: T.Id) returns (timedOut: bool)
      requires Valid() && id in drives && drives[id] == T.Executing
      modifies this
      ensures Valid() && View() == T.Deadline(old(View()), id)
      ensures drives == old(drives)[id := T.Stopping(timedOut)]
      ensures id in records ==>
        (timedOut <==> records[id].timeoutTriggered) && !(timedOut && records[id].cancelRequested)
    {
      hide Sane;
      DeadlineKeeps(config, View(), id);
      var cancelWon := id in records && records[id].cancelRequested;
      if id in records && !cancelWon {
        records := records[id := records[id].(timeoutTriggered := true)];
      }
      timedOut := !cancelWon;
      drives := drives[id := T.Stopping(timedOut)];
    }

    method RequestCancel(id: T.Id) returns (r: T.CancelResult)
      requires Valid()
      modifies this
      ensures Valid() && (View(), r) == T.CancelRequest(old(View()), id, false)
      ensures r.Requested? ==>
        id in records && records[id].cancelRequested && !records[id].timeoutTriggered && id in cancellers
      ensures !r.Requested? ==> View() == old(View())
    {
      hide Sane;
      CancelKeeps(config, View(), id);
      if id !in records {
        return T.NotFound;
      }
      var record := records[id];
      if record.status.Terminal() {
        return T.AlreadyTerminal;
      }
      if record.cancelRequested || record.timeoutTriggered {
        return T.AlreadyRequested;
      }
      record := record.(cancelRequested := true);
      if record.hasDriver {
        record := record.(cancelForwarded := true);
      }
      records := records[id := record];
      cancellers := cancellers[id := T.Canceller(false)];
      return T.Requested;
    }

    /** The new state of a commit, field by field. */
    static lemma CommitFields(m: T.Manager, id: T.Id, outcome: T.Status, preserveFailed: bool)
      requires id in m.records && !m.records[id].status.Terminal()
      ensures
        var r, q := m.records[id], T.Commit(m, id, outcome, preserveFailed);
        && q.records == m.records[id := r.(
             status := T.FinalStatus(r, outcome, preserveFailed), lease := None,
             notificationPending := r.placement.Background? && !m.resetting)]
        && q.foreground == (if m.foreground == Some(id) then None else m.foreground)
        && q.taken == (if r.lease.Some? then m.taken + {r.lease.value} else m.taken)
        && q == m.(records := q.records, foreground := q.foreground, taken := q.taken)
    {
      hide T.FinalStatus;
    }

    static lemma CommitSettles(m: T.Manager, id: T.Id, outcome: T.Status, preserveFailed: bool)
      ensures
        var q := T.Commit(m, id, outcome, preserveFailed);
        id in q.records ==> q.records[id].status.Terminal()
    {
    }

    static lemma CommitFinished(m: T.Manager, id: T.Id, outcome: T.Status, preserveFailed: bool)
      requires id !in m.records || m.records[id].status.Terminal()
      ensures T.Commit(m, id, outcome, preserveFailed) == m
    {
    }

    /** `_commit_terminal` under the lock; the lease it takes out of the record is closed afterwards. */
    method CommitTerminal(id: T.Id, outcome: T.Status, preserveFailed: bool) returns (lease: Option<nat>)
      modifies this
      ensures View() == T.Commit(old(View()), id, outcome, preserveFailed)
      ensures lease.Some? ==> taken == old(taken) + {lease.value}
      ensures id in records ==> records[id].status.Terminal()
    {
      hide T.FinalStatus, T.Commit, T.Status.Terminal;
      CommitSettles(View(), id, outcome, preserveFailed);
      if id !in records || records[id].status.Terminal() {
        CommitFinished(View(), id, outcome, preserveFailed);
        return None;
      }
      var record := records[id];
      var status := DecideStatus(record, outcome, preserveFailed);
      CommitFields(View(), id, outcome, preserveFailed);
      lease := StoreTerminal(id, status);
    }

    /** Status, notification and foreground change together, and the lease leaves the record. */
    method StoreTerminal(id: T.Id, status: T.Status) returns (lease: Option<nat>)
      requires id in records
      modifies this`records, this`foreground, this`taken
      ensures lease == old(records)[id].lease
      ensures
        var record := old(records)[id];
        records == old(records)[id := record.(
          status := status, lease := None,
          notificationPending := record.placement.Background? && !resetting)]
      ensures foreground == if old(foreground) == Some(id) then None else old(foreground)
      ensures taken == if lease.Some? then old(taken) + {lease.value} else old(taken)
    {
      var record := records[id];
      lease := record.lease;
      var pending := record.placement == T.Background && !resetting;
      records := records[id := record.(status := status, lease := None, notificationPending := pending)];
      if foreground == Some(id) {
        foreground := None;
      }
      if lease.Some? {
        taken := taken + {lease.value};
      }
    }

    /**
      The status is final. A task whose cancellation was requested is cancelled or completed, unless a
      timeout keeps its failure; only a completed execution completes; a task that nobody cancelled
      is cancelled only when its own outcome says so.
    */
    static method DecideStatus(record: T.Record, outcome: T.Status, preserveFailed: bool) returns (status: T.Status)
      ensures status == T.FinalStatus(record, outcome, preserveFailed)
      ensures status.Terminal() && (status.Completed? <==> outcome.Completed?)
      ensures record.cancelRequested && !preserveFailed ==> status.Cancelled? || status.Completed?
      ensures status.Cancelled? && !outcome.Cancelled? ==> record.cancelRequested && !preserveFailed
    {
      var reported := if outcome.Terminal() then outcome else T.Failed;
      if record.cancelRequested && reported != T.Completed && !preserveFailed {
        return T.Cancelled;
      }
      return reported;
    }

    /**
      `_drive` leaves its `finally` block. An active task fails when it timed out and its driver reports
      anything; without a cancellation it gets what the driver reports, else what its execution ended with.
    */
    method FinishDrive(id: T.Id, reported: Option<T.Status>)
      requires Valid() && id in drives && drives[id].Closing?
      modifies this
      ensures Valid() && View() == T.DriveCommit(old(View()), id, reported)
      ensures id in records ==> records[id].status.Terminal() && records[id].lease.None? && foreground != Some(id)
      ensures id in old(records) && old(records)[id].Active() ==>
        var d, last := old(drives)[id], if reported.Some? then reported.value else old(drives)[id].outcome;
        && id in records
        && (d.timedOut && reported.Some? ==> records[id].status.Failed?)
        && (!d.timedOut && !old(records)[id].cancelRequested ==> records[id].status == O.Settled(last))
        && (old(records)[id].cancelRequested
            ==> records[id].status == if last.Completed? then T.Completed else T.Cancelled)
    {
      hide Sane, T.FinalStatus, T.Commit, T.Outcome, T.RecordsInv, O.Settled;
      FinishKeeps(config, View(), id, reported);
      if id in records && records[id].Active() {
        TasksOf(View());
        O.DriveEndsWith(View(), id, reported);
      }
      var drive := drives[id];
      CommitKeepsDrives(View(), id, T.Outcome(drive, reported), drive.timedOut);
      var _ := CommitTerminal(id, T.Outcome(drive, reported), drive.timedOut);
      drives := drives[id := T.Ended];
    }

    static lemma CommitKeepsDrives(m: T.Manager, id: T.Id, outcome: T.Status, preserveFailed: bool)
      ensures T.Commit(m, id, outcome, preserveFailed).drives == m.drives
    {
      hide T.FinalStatus;
    }

    /** The end of `cancel`. */
    method FinishCancel(id: T.Id)
      requires Valid() && id in cancellers
      modifies this
      ensures Valid() && View() == T.CancelCommit(old(View()), id)
      ensures id in records ==> records[id].status.Cancelled? || records[id].status.Completed?
      ensures id in records ==> records[id].lease.None? && foreground != Some(id)
    {
      hide Sane, T.FinalStatus;
      CancelCommitKeeps(config, View(), id);
      var _ := CommitTerminal(id, T.Cancelled, false);
      cancellers := cancellers - {id};
    }

    method CloseLease(token: nat)
      requires Valid() && token in taken
      modifies this, pool
      ensures Valid() && View() == T.CloseTaken(old(View()), token)
      ensures token !in T.Slots(pool.View())
    {
      hide Sane, T.Slots;
      PoolOf(View());
      CloseKeeps(config, View(), token);
      hide P.Inv, P.Busy, P.WaitersInRange, P.CloseLease;
      pool.CloseLease(token);
      taken := taken - {token};
    }

    method DetachForeground(id: T.Id) returns (detached: bool)
      requires Valid()
      modifies this
      ensures Valid() && (View(), detached) == T.Detach(old(View()), id)
      ensures detached <==> old(foreground) == Some(id)
      ensures detached ==> foreground.None?
    {
      hide Sane;
      DetachKeeps(config, View(), id);
      if id !in records || records[id].status.Terminal() || records[id].placement != T.Foreground {
        return false;
      }
      records := records[id := records[id].(placement := T.Background)];
      if foreground == Some(id) {
        foreground := None;
      }
      return true;
    }

    method MarkDelivered(id: T.Id)
      requires Valid()
      modifies this
      ensures Valid() && View() == T.MarkDelivered(config, old(View()), id)
      ensures forall i :: i in old(records) && old(records)[i].Active() ==>
          i in records && records[i] == old(records)[i]
    {
      hide Sane;
      DeliverKeeps(config, View(), id);
      if id !in records || !records[id].status.Terminal() || !records[id].notificationPending {
        return;
      }
      records := records[id := records[id].(notificationPending := false)];
      delivered := delivered + [id];
      ghost var goal := T.Evict(config.retention, records, delivered);
      while |delivered| > config.retention
        invariant T.Evict(config.retention, records, delivered) == goal
        invariant unchanged(this`foreground, this`resetting, this`closed, this`clearing, this`drives)
        invariant unchanged(this`cancellers, this`sweep, this`closing, this`taken, this`dropped)
        decreases |delivered|
      {
        var oldest := delivered[0];
        delivered := delivered[1..];
        if oldest in records && records[oldest].status.Terminal() && !records[oldest].notificationPending {
          records := records - {oldest};
        }
      }
    }

    /** The first critical section of `reset`. */
    method BeginReset() returns (active: set<T.Id>)
      requires Valid()
      modifies this
      ensures Valid() && View() == T.BeginReset(old(View()))
      ensures !old(closed) && !old(resetting) ==> resetting && active == T.ActiveIds(records)
    {
      hide Sane, T.ActiveIds;
      ResetKeeps(config, View());
      if closed || resetting {
        return {};
      }
      active := T.ActiveIds(records);
      resetting, clearing, sweep := true, true, active;
    }

    /** The second one, after `_cancel_many` returned. */
    method FinishReset()
      requires Valid() && clearing && T.SweepDone(View())
      modifies this
      ensures Valid() && View() == T.FinishReset(old(View()))
      ensures dropped == old(dropped) <==> T.ActiveIds(old(records)) == {}
    {
      hide Sane, T.RecordLeases, T.SweepDone, T.ActiveIds;
      ClearKeeps(config, View());
      dropped := dropped + T.RecordLeases(records);
      records, foreground, delivered := map[], None, [];
      resetting, clearing, sweep := false, false, {};
    }
  }

  // --- Each step keeps the invariants, and what follows from them -----------------------------------

  lemma StartKeeps(cfg: T.Config, m: T.Manager, id: T.Id, placement: T.Placement)
    requires Sane(m) && P.WaitersInRange(m.pool) && T.IdFree(m, id)
    ensures
      var (n, r) := T.Start(cfg, m, id, placement);
      && (P.Inv(n.pool) && P.Busy(n.pool) ==> Sane(n))
      && (r.Ok? ==> id in n.records && n.records[id].lease == Some(r.value) && r.value in T.Slots(n.pool))
  {
    hide P.Inv, P.Busy, P.WaitersInRange, P.TryAcquire, T.RecordsInv, T.LeaseInv, T.Slots, T.StartCheck;
    var (n, r) := T.Start(cfg, m, id, placement);
    StartIsStep(cfg, m, id, placement);
    hide T.Step, T.IdFree;
    T.StepOk(cfg, m, T.StartTask(id, placement));
    if r.Ok? { HeldSlot(n, id); }
  }

  lemma StartIsStep(cfg: T.Config, m: T.Manager, id: T.Id, placement: T.Placement)
    requires P.WaitersInRange(m.pool) && T.IdFree(m, id)
    ensures T.Step(cfg, m, T.StartTask(id, placement)) == T.Start(cfg, m, id, placement).0
  {
    hide T.Start;
  }

  lemma HeldSlot(m: T.Manager, id: T.Id)
    requires T.LeaseInv(m) && id in m.records && m.records[id].lease.Some?
    ensures m.records[id].lease.value in T.Slots(m.pool)
  {
    hide T.Slots, T.PoolOk;
    assert m.records[id].lease.value in T.RecordLeases(m.records);
  }

  lemma BeginKeeps(cfg: T.Config, m: T.Manager, id: T.Id)
    requires Sane(m) && id in m.drives && m.drives[id] == T.Created
    ensures
      var n := T.DriveBegin(m, id);
      Sane(n) && (id in m.records && m.records[id].status.Terminal() ==> n.records == m.records)
  {
    hide Sane;
    PoolOf(m);
    StepKeeps(cfg, m, T.Begin(id));
    NotRevived(m, id);
  }

  /** A task that finished before its coroutine began was cancelled. */
  lemma NotRevived(m: T.Manager, id: T.Id)
    requires Sane(m) && id in m.drives && m.drives[id] == T.Created
    ensures id in m.records && m.records[id].status.Terminal() ==> m.records[id].cancelRequested
  {
    hide T.LeaseInv, P.Inv, P.Busy, T.ForegroundInv;
    if id in m.records && m.records[id].status.Terminal() { T.DriveKnows(m, id); }
  }

  lemma DeadlineKeeps(cfg: T.Config, m: T.Manager, id: T.Id)
    requires Sane(m) && id in m.drives && m.drives[id] == T.Executing
    ensures
      var n := T.Deadline(m, id);
      && Sane(n) && n.drives[id].Stopping?
      && (id in n.records ==>
            (n.drives[id].timedOut <==> n.records[id].timeoutTriggered)
                && !(n.drives[id].timedOut && n.records[id].cancelRequested))
  {
    hide Sane;
    PoolOf(m);
    StepKeeps(cfg, m, T.DeadlinePasses(id));
    Facts(T.Deadline(m, id), id);
    Facts(m, id);
  }

  lemma CancelKeeps(cfg: T.Config, m: T.Manager, id: T.Id)
    requires Sane(m)
    ensures Sane(T.CancelRequest(m, id, false).0)
  {
    hide Sane;
    PoolOf(m);
    StepKeeps(cfg, m, T.Cancel(id, false));
  }

  lemma FinishKeeps(cfg: T.Config, m: T.Manager, id: T.Id, reported: Option<T.Status>)
    requires Sane(m) && id in m.drives && m.drives[id].Closing?
    ensures
      var n := T.DriveCommit(m, id, reported);
      Sane(n) && (id in n.records ==>
          n.records[id].status.Terminal() && n.records[id].lease.None? && n.foreground != Some(id))
  {
    hide Sane, T.Step, T.DriveCommit;
    PoolOf(m);
    FinishIsStep(cfg, m, id, reported);
    FinishSettles(m, id, reported);
    StepKeeps(cfg, m, T.Finish(id, reported));
    Facts(T.DriveCommit(m, id, reported), id);
  }

  lemma FinishIsStep(cfg: T.Config, m: T.Manager, id: T.Id, reported: Option<T.Status>)
    requires P.WaitersInRange(m.pool)
    ensures T.Step(cfg, m, T.Finish(id, reported)) == T.DriveCommit(m, id, reported)
  {
    hide T.DriveCommit;
  }

  lemma FinishSettles(m: T.Manager, id: T.Id, reported: Option<T.Status>)
    requires id in m.drives && m.drives[id].Closing?
    ensures
      var n := T.DriveCommit(m, id, reported);
      n.pool == m.pool && (id in n.records ==> n.records[id].status.Terminal())
  {
  }

  lemma CancelCommitKeeps(cfg: T.Config, m: T.Manager, id: T.Id)
    requires Sane(m) && id in m.cancellers
    ensures
      var n := T.CancelCommit(m, id);
      && Sane(n)
      && (id in n.records ==>
            && (n.records[id].status.Cancelled? || n.records[id].status.Completed?)
            && n.records[id].lease.None? && n.foreground != Some(id))
  {
    hide Sane, T.FinalStatus;
    PoolOf(m);
    Facts(m, id);
    StepKeeps(cfg, m, T.CommitCancel(id));
    Facts(T.CancelCommit(m, id), id);
  }

  lemma CloseKeeps(cfg: T.Config, m: T.Manager, token: nat)
    requires Sane(m) && P.WaitersInRange(m.pool) && token in m.taken
    ensures
      var n := T.CloseTaken(m, token);
      (P.Inv(n.pool) && P.Busy(n.pool) ==> Sane(n)) && token !in T.Slots(n.pool)
  {
    hide P.Inv, P.Busy, P.WaitersInRange, P.CloseLease, T.RecordsInv, T.LeaseInv, T.Slots;
    CloseIsStep(cfg, m, token);
    hide T.Step;
    T.StepOk(cfg, m, T.Event.CloseLease(token));
    FreedSlot(m, T.CloseTaken(m, token), token);
  }

  lemma CloseIsStep(cfg: T.Config, m: T.Manager, token: nat)
    requires P.WaitersInRange(m.pool)
    ensures T.Step(cfg, m, T.Event.CloseLease(token)) == T.CloseTaken(m, token)
  {
    hide T.CloseTaken;
  }

  /** A slot that no record, close or reset accounts for is free. */
  lemma FreedSlot(m: T.Manager, n: T.Manager, token: nat)
    requires T.LeaseInv(m) && T.LeaseInv(n) && token in m.taken
    requires n.records == m.records && n.dropped == m.dropped && n.taken == m.taken - {token}
    ensures token !in T.Slots(n.pool)
  {
    hide T.Slots, T.PoolOk, T.RecordLeases, T.OwnLeases;
  }

  lemma DetachKeeps(cfg: T.Config, m: T.Manager, id: T.Id)
    requires Sane(m)
    ensures
      var (n, detached) := T.Detach(m, id);
      Sane(n) && (detached <==> m.foreground == Some(id)) && (detached ==> n.foreground.None?)
  {
    hide Sane;
    PoolOf(m);
    StepKeeps(cfg, m, T.DetachTask(id));
    Facts(m, id);
  }

  lemma DeliverKeeps(cfg: T.Config, m: T.Manager, id: T.Id)
    requires Sane(m)
    ensures
      var n := T.MarkDelivered(cfg, m, id);
      Sane(n) && forall i :: i in m.records && m.records[i].Active() ==> i in n.records && n.records[i] == m.records[i]
  {
    hide Sane;
    PoolOf(m);
    ActiveStay(cfg, m, id);
    hide T.MarkDelivered;
    DeliverIsStep(cfg, m, id);
    hide T.Step;
    StepKeeps(cfg, m, T.Deliver(id));
  }

  lemma DeliverIsStep(cfg: T.Config, m: T.Manager, id: T.Id)
    requires P.WaitersInRange(m.pool)
    ensures T.Step(cfg, m, T.Deliver(id)) == T.MarkDelivered(cfg, m, id) && T.MarkDelivered(cfg, m, id).pool == m.pool
  {
    hide T.Evict;
  }

  /** Delivering and evicting leave the active tasks alone. */
  lemma ActiveStay(cfg: T.Config, m: T.Manager, id: T.Id)
    ensures
      var n := T.MarkDelivered(cfg, m, id);
      forall i :: i in m.records && m.records[i].Active() ==> i in n.records && n.records[i] == m.records[i]
  {
    hide T.Evict;
    if id in m.records {
      T.EvictKeeps(cfg.retention, m.records[id := m.records[id].(notificationPending := false)], m.delivered + [id]);
    }
  }

  lemma ResetKeeps(cfg: T.Config, m: T.Manager)
    requires Sane(m)
    ensures Sane(T.BeginReset(m))
  {
    hide Sane;
    PoolOf(m);
    StepKeeps(cfg, m, T.Reset);
  }

  lemma ClearKeeps(cfg: T.Config, m: T.Manager)
    requires Sane(m) && m.clearing && T.SweepDone(m)
    ensures Sane(T.FinishReset(m)) && (T.FinishReset(m).dropped == m.dropped <==> T.ActiveIds(m.records) == {})
  {
    PoolOf(m);
    T.ResetLosesSlotsIff(m);
    hide Sane, T.SweepDone, T.RecordLeases, T.ActiveIds;
    StepKeeps(cfg, m, T.ResetClears);
  }
}
