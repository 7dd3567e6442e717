/**
  The sub-agent task manager (`src/mewcode/subagents/tasks.py`).

  Its coroutines interleave at their awaits: the driving coroutine of each task,
  any number of callers of `cancel`, one `reset` or `close`, and the other users
  of the shared capacity pool. Each event below is what one of them does between
  two awaits; an event that its coroutine cannot take in a state changes nothing.
*/
module TaskManager {
  import opened Wrappers
  import Text
  import P = CapacityPool

  type Id = string

  datatype Status = Registered | Running | Completed | Failed | Cancelled {
    predicate Terminal() { Completed? || Failed? || Cancelled? }
  }

  datatype Placement = Foreground | Background

  datatype Record = Record(
    status: Status,
    placement: Placement,
    lease: Option<nat>,
    hasDriver: bool,
    cancelRequested: bool,
    cancelForwarded: bool,
    timeoutTriggered: bool,
    notificationPending: bool)
  {
    predicate Active() { !status.Terminal() }
  }

  /** Where the coroutine `_drive` of a task is. */
  datatype Drive =
    | Created                                      // has not taken its first step
    | Executing                                    // waits for the execution or the deadline
    | Stopping(timedOut: bool)                     // the deadline passed; stops the execution
    | Closing(outcome: Status, timedOut: bool)     // in its `finally` block
    | Ended

  /** A `cancel` call that got REQUESTED and has not committed yet; `sweep` when reset or close made it. */
  datatype Canceller = Canceller(sweep: bool)

  datatype Manager = Manager(
    pool: P.Pool,
    records: map<Id, Record>,
    foreground: Option<Id>,
    resetting: bool,
    closed: bool,
    clearing: bool,          // a `reset` is between its two critical sections
    drives: map<Id, Drive>,
    cancellers: map<Id, Canceller>,
    sweep: set<Id>,          // the tasks that reset waits for
    closing: set<Id>,        // the tasks that close waits for
    taken: set<nat>,         // leases taken from a record and about to be closed
    dropped: set<nat>,       // leases whose record reset removed while it was active
    delivered: seq<Id>)

  datatype Config = Config(maxActive: nat, retention: nat)

  datatype StartError =
    | ManagerClosed | ManagerResetting | ActiveLimit | ForegroundBound | DuplicateId | PoolError(error: P.Error)

  datatype CancelResult = Requested | NotFound | AlreadyTerminal | AlreadyRequested

  function TaskOwner(id: Id): P.Owner {
    P.Owner("subagent", Text.Strip(id))
  }

  function Init(pool: P.Pool): Manager {
    Manager(pool, map[], None, false, false, false, map[], map[], {}, {}, {}, {}, [])
  }

  function ActiveIds(records: map<Id, Record>): set<Id> {
    set id | id in records && records[id].Active()
  }

  // --- The critical sections ----------------------------------------------------

  /** No coroutine of an earlier task with this id is at work any more. */
  predicate IdFree(m: Manager, id: Id) {
    (id in m.drives ==> m.drives[id].Ended?) && id !in m.cancellers
  }

  /** The checks of `start`, in their order. */
  function StartCheck(cfg: Config, m: Manager, id: Id, placement: Placement): Option<StartError> {
    if m.closed then Some(ManagerClosed)
    else if m.resetting then Some(ManagerResetting)
    else if |ActiveIds(m.records)| >= cfg.maxActive then Some(ActiveLimit)
    else if placement.Foreground? && m.foreground.Some? then Some(ForegroundBound)
    else if id in m.records then Some(DuplicateId)
    else None
  }

  function Start(cfg: Config, m: Manager, id: Id, placement: Placement): (r: (Manager, Result<nat, StartError>))
    requires P.WaitersInRange(m.pool)
  {
    match StartCheck(cfg, m, id, placement)
    case Some(error) => (m, Err(error))
    case None =>
      var (pool, granted) := P.TryAcquire(m.pool, TaskOwner(id));
      match granted
      case Err(e) => (m, Err(PoolError(e)))
      case Ok(None) => (m, Err(ActiveLimit))
      case Ok(Some(token)) =>
        (Registration(m.(pool := pool), id, placement, token), Ok(token))
  }

  function Registration(m: Manager, id: Id, placement: Placement, token: nat): Manager {
    m.(records := m.records[id := Record(Registered, placement, Some(token), false, false, false, false, false)],
       foreground := if placement.Foreground? then Some(id) else m.foreground,
       drives := m.drives[id := Created])
  }

  function DriveBegin(m: Manager, id: Id): Manager {
    if id !in m.drives || m.drives[id] != Created then m
    else if id !in m.records then m.(drives := m.drives[id := Closing(Failed, false)])
    else if m.records[id].cancelRequested then m.(drives := m.drives[id := Executing])
    else
      m.(records := m.records[id := m.records[id].(status := Running)],
         drives := m.drives[id := Executing])
  }

  /** `_run_driver` stores the driver and forwards a cancellation that came before it. */
  function AttachDriver(m: Manager, id: Id): Manager {
    if id !in m.drives || m.drives[id] != Executing || id !in m.records || m.records[id].hasDriver then m
    else
      var r := m.records[id];
      m.(records := m.records[id := r.(hasDriver := true, cancelForwarded := r.cancelForwarded || r.cancelRequested)])
  }

  /** The execution ends before the deadline, with an outcome or an exception. */
  function ExecutionEnds(m: Manager, id: Id, outcome: Status): Manager {
    if id in m.drives && m.drives[id] == Executing then m.(drives := m.drives[id := Closing(outcome, false)]) else m
  }

  function Deadline(m: Manager, id: Id): Manager {
    if id !in m.drives || m.drives[id] != Executing then m
    else if id !in m.records then m.(drives := m.drives[id := Stopping(true)])
    else if m.records[id].cancelRequested then m.(drives := m.drives[id := Stopping(false)])
    else
      m.(records := m.records[id := m.records[id].(timeoutTriggered := true)],
         drives := m.drives[id := Stopping(true)])
  }

  function StopDone(m: Manager, id: Id): Manager {
    if id in m.drives && m.drives[id].Stopping? then
      var timedOut := m.drives[id].timedOut;
      m.(drives := m.drives[id := Closing(if timedOut then Failed else Cancelled, timedOut)])
    else m
  }

  /** `task.cancel()` on the driving coroutine: inside its `finally` block it ends without a commit. */
  function HardCancel(m: Manager, id: Id): Manager {
    if id !in m.drives || (id !in m.cancellers && id !in m.sweep && id !in m.closing) then m
    else
      match m.drives[id]
      case Created => m.(drives := m.drives[id := Ended])
      case Executing => m.(drives := m.drives[id := Closing(Cancelled, false)])
      case Stopping(timedOut) => m.(drives := m.drives[id := Closing(Cancelled, timedOut)])
      case Closing(_, _) => m.(drives := m.drives[id := Ended])
      case Ended => m
  }

  /** A requested cancellation overrules every outcome but completion, unless a timeout keeps its failure. */
  function FinalStatus(r: Record, outcome: Status, preserveFailed: bool): (status: Status)
    ensures status.Terminal()
  {
    var reported := if outcome.Terminal() then outcome else Failed;
    if r.cancelRequested && !reported.Completed? && !preserveFailed then Cancelled else reported
  }

  /** `_commit_terminal` up to the end of its critical section. */
  function Commit(m: Manager, id: Id, outcome: Status, preserveFailed: bool): Manager {
    if id !in m.records || m.records[id].status.Terminal() then m
    else
      var r := m.records[id];
      m.(records := m.records[id := r.(
                      status := FinalStatus(r, outcome, preserveFailed),
                      lease := None,
                      notificationPending := r.placement.Background? && !m.resetting)],
         foreground := if m.foreground == Some(id) then None else m.foreground,
         taken := m.taken + if r.lease.Some? then {r.lease.value} else {})
  }

  /**
    The outcome with which `_drive` leaves its `finally` block. Closing the driver may replace it:
    by the timeout outcome when it timed out, otherwise by whatever the driver reports.
  */
  function Outcome(d: Drive, reported: Option<Status>): Status
    requires d.Closing?
  {
    if reported.None? then d.outcome else if d.timedOut then Failed else reported.value
  }

  function DriveCommit(m: Manager, id: Id, reported: Option<Status>): Manager {
    if id !in m.drives || !m.drives[id].Closing? then m
    else
      var d := m.drives[id];
      Commit(m, id, Outcome(d, reported), d.timedOut).(drives := m.drives[id := Ended])
  }

  function CancelRequest(m: Manager, id: Id, sweep: bool): (r: (Manager, CancelResult)) {
    if id !in m.records then (m, NotFound)
    else
      var r := m.records[id];
      if r.status.Terminal() then (m, AlreadyTerminal)
      else if r.cancelRequested || r.timeoutTriggered then (m, AlreadyRequested)
      else
        var asked := r.(cancelRequested := true, cancelForwarded := r.cancelForwarded || r.hasDriver);
        (m.(records := m.records[id := asked], cancellers := m.cancellers[id := Canceller(sweep)]), Requested)
  }

  function CancelCommit(m: Manager, id: Id): Manager {
    if id !in m.cancellers then m
    else Commit(m, id, Cancelled, false).(cancellers := m.cancellers - {id})
  }

  /** A caller of `cancel` is itself cancelled while it waits for the driver. */
  function AbandonCancel(m: Manager, id: Id): Manager {
    if id in m.cancellers && !m.cancellers[id].sweep then m.(cancellers := m.cancellers - {id}) else m
  }

  function CloseTaken(m: Manager, token: nat): Manager
    requires P.WaitersInRange(m.pool)
  {
    if token in m.taken then m.(pool := P.CloseLease(m.pool, token), taken := m.taken - {token}) else m
  }

  function Detach(m: Manager, id: Id): (r: (Manager, bool)) {
    if id !in m.records || m.records[id].status.Terminal() || !m.records[id].placement.Foreground? then (m, false)
    else
      (m.(records := m.records[id := m.records[id].(placement := Background)],
          foreground := if m.foreground == Some(id) then None else m.foreground),
       true)
  }

  /** The eviction loop of `_mark_delivered`. */
  function Evict(retention: nat, records: map<Id, Record>, delivered: seq<Id>): (r: (map<Id, Record>, seq<Id>))
    decreases |delivered|
  {
    if |delivered| <= retention then (records, delivered)
    else
      var oldest := delivered[0];
      var kept :=
        if oldest in records && records[oldest].status.Terminal() && !records[oldest].notificationPending
        then records - {oldest} else records;
      Evict(retention, kept, delivered[1..])
  }

  function MarkDelivered(cfg: Config, m: Manager, id: Id): Manager {
    if id !in m.records || !m.records[id].status.Terminal() || !m.records[id].notificationPending then m
    else
      var (records, delivered) :=
        Evict(cfg.retention, m.records[id := m.records[id].(notificationPending := false)], m.delivered + [id]);
      m.(records := records, delivered := delivered)
  }

  function BeginReset(m: Manager): Manager {
    if m.closed || m.resetting then m
    else m.(resetting := true, clearing := true, sweep := ActiveIds(m.records))
  }

  function BeginClose(m: Manager): Manager {
    if m.closed then m else m.(closed := true, resetting := true, closing := ActiveIds(m.records))
  }

  /**
    `_cancel_many` has returned to `reset`: its cancellations committed, and the swept coroutines with a record
    ended.
  */
  predicate SweepDone(m: Manager) {
    && (forall id :: id in m.cancellers ==> !m.cancellers[id].sweep)
    && (forall id :: id in m.sweep && id in m.records && id in m.drives ==> m.drives[id].Ended?)
  }

  function FinishReset(m: Manager): Manager {
    if !m.clearing || !SweepDone(m) then m
    else
      m.(records := map[], foreground := None, delivered := [], resetting := false, clearing := false, sweep := {},
         dropped := m.dropped + RecordLeases(m.records))
  }

  function RecordLeases(records: map<Id, Record>): set<nat> {
    set id | id in records && records[id].lease.Some? :: records[id].lease.value
  }

  // --- Runs ----------------------------------------------------------------------

  datatype Event =
    | StartTask(id: Id, placement: Placement)
    | Pool(event: P.Event)                          // another user of the shared pool
    | Begin(id: Id)
    | Attach(id: Id)
    | Ends(id: Id, outcome: Status)
    | DeadlinePasses(id: Id)
    | Stopped(id: Id)
    | CancelDrive(id: Id)
    | Finish(id: Id, reported: Option<Status>)
    | Cancel(id: Id, sweep: bool)
    | CommitCancel(id: Id)
    | Abandon(id: Id)
    | CloseLease(token: nat)
    | DetachTask(id: Id)
    | Deliver(id: Id)
    | Reset
    | ResetClears
    | Close

  /** Other users own leases and calls of other kinds, and do not close the pool's leases of tasks. */
  predicate Foreign(p: P.Pool, e: P.Event) {
    match e
    case TryAcquireEvent(o) => o.kind != "subagent"
    case AcquireEvent(o) => o.kind != "subagent"
    case ResumeEvent(c) => true
    case CancelEvent(c) => true
    case UnwindEvent(c) => true
    case CloseLeaseEvent(t) => t < |p.leases| ==> p.leases[t].owner.kind != "subagent"
    case ClosePoolEvent => true
  }

  /** A task id is never handed out twice (`uuid4`). */
  function Step(cfg: Config, m: Manager, e: Event): Manager
    requires P.WaitersInRange(m.pool)
  {
    match e
    case StartTask(id, placement) => if IdFree(m, id) then Start(cfg, m, id, placement).0 else m
    case Pool(pe) => if Foreign(m.pool, pe) then m.(pool := P.Step(m.pool, pe)) else m
    case Begin(id) => DriveBegin(m, id)
    case Attach(id) => AttachDriver(m, id)
    case Ends(id, outcome) => ExecutionEnds(m, id, outcome)
    case DeadlinePasses(id) => Deadline(m, id)
    case Stopped(id) => StopDone(m, id)
    case CancelDrive(id) => HardCancel(m, id)
    case Finish(id, reported) => DriveCommit(m, id, reported)
    case Cancel(id, sweep) => if sweep ==> id in m.sweep && m.clearing then CancelRequest(m, id, sweep).0 else m
    case CommitCancel(id) => CancelCommit(m, id)
    case Abandon(id) => AbandonCancel(m, id)
    case CloseLease(token) => CloseTaken(m, token)
    case DetachTask(id) => Detach(m, id).0
    case Deliver(id) => MarkDelivered(cfg, m, id)
    case Reset => BeginReset(m)
    case ResetClears => FinishReset(m)
    case Close => BeginClose(m)
  }

  // --- Invariants ------------------------------------------------------------------

  /** What the fields of one record say about each other. */
  predicate FlagsOk(r: Record) {
    && !(r.cancelRequested && r.timeoutTriggered)
    && (r.cancelRequested && r.status.Terminal() ==> r.status.Cancelled? || r.status.Completed?)
    && (r.cancelForwarded <==> r.cancelRequested && r.hasDriver)
    && (r.notificationPending ==> r.status.Terminal() && r.placement.Background?)
    && (r.lease.Some? <==> r.Active())
  }

  /** What the driving coroutine knows about its record. */
  predicate DriveOk(r: Record, d: Drive) {
    && (r.status.Terminal() ==> r.cancelRequested || d.Ended?)
    && ((d.Stopping? || d.Closing?) && d.timedOut ==> r.timeoutTriggered)
  }

  ghost predicate TasksInv(m: Manager) {
    && m.cancellers.Keys <= m.drives.Keys
    && (forall id :: id in m.records ==>
          id in m.drives && FlagsOk(m.records[id]) && DriveOk(m.records[id], m.drives[id])
          && (id in m.cancellers ==> m.records[id].cancelRequested))
  }

  /** `_current_foreground` names exactly the active foreground task. */
  ghost predicate ForegroundInv(m: Manager) {
    forall id :: IsForeground(m.records, id) <==> m.foreground == Some(id)
  }

  predicate IsForeground(records: map<Id, Record>, id: Id) {
    id in records && records[id].Active() && records[id].placement.Foreground?
  }

  ghost predicate RecordsInv(m: Manager) {
    TasksInv(m) && ForegroundInv(m)
  }

  lemma StartKeeps(cfg: Config, m: Manager, id: Id, placement: Placement)
    requires P.WaitersInRange(m.pool) && RecordsInv(m) && IdFree(m, id)
    ensures RecordsInv(Start(cfg, m, id, placement).0)
  {
    hide P.TryAcquire, RecordsInv;
    if Start(cfg, m, id, placement).1.Ok? {
      var pool, token := P.TryAcquire(m.pool, TaskOwner(id)).0, Start(cfg, m, id, placement).1.value;
      RegistrationKeeps(m, pool, id, placement, token);
    } else {
      RefusedPool(m.pool, TaskOwner(id));
      PoolKeeps(m, P.TryAcquire(m.pool, TaskOwner(id)).0, m.taken);
    }
  }

  lemma RefusedPool(p: P.Pool, owner: P.Owner)
    requires P.WaitersInRange(p)
    ensures var (q, granted) := P.TryAcquire(p, owner); granted.Err? || granted.value.None? ==> q == p
  {
  }

  lemma RegistrationKeeps(m: Manager, pool: P.Pool, id: Id, placement: Placement, token: nat)
    requires RecordsInv(m) && IdFree(m, id) && id !in m.records && (placement.Foreground? ==> m.foreground.None?)
    ensures RecordsInv(Registration(m.(pool := pool), id, placement, token))
  {
    var n := Registration(m.(pool := pool), id, placement, token);
    assert forall i :: i != id ==> (IsForeground(n.records, i) <==> IsForeground(m.records, i));
  }

  /** A step that leaves the placement and activity of every task as they were. */
  lemma SameForeground(m: Manager, n: Manager)
    requires ForegroundInv(m) && n.foreground == m.foreground && n.records.Keys == m.records.Keys
    requires forall i :: i in m.records ==>
      n.records[i].placement == m.records[i].placement && n.records[i].Active() == m.records[i].Active()
    ensures ForegroundInv(n)
  {
    assert forall i :: IsForeground(n.records, i) <==> IsForeground(m.records, i);
  }

  /** A step that touches the record, the drive or the canceller of one task. */
  lemma UpdateKeeps(m: Manager, n: Manager, id: Id)
    requires RecordsInv(m) && id in m.drives && id in n.drives && n.foreground == m.foreground
    requires n.records.Keys == m.records.Keys && n.drives.Keys == m.drives.Keys
    requires n.cancellers.Keys <= m.cancellers.Keys + {id}
    requires forall i :: i in m.drives && i != id ==> n.drives[i] == m.drives[i]
    requires forall i :: i in m.records && i != id ==> n.records[i] == m.records[i]
    requires id in m.records ==>
      && FlagsOk(n.records[id]) && DriveOk(n.records[id], n.drives[id])
      && (id in n.cancellers ==> n.records[id].cancelRequested)
      && n.records[id].placement == m.records[id].placement
      && n.records[id].Active() == m.records[id].Active()
    ensures RecordsInv(n)
  {
    SameForeground(m, n);
  }

  /** Moving the coroutine of one task from `m.drives[id]` to `d`. */
  lemma MoveKeeps(m: Manager, id: Id, d: Drive)
    requires RecordsInv(m) && id in m.drives
    requires id in m.records ==> DriveOk(m.records[id], d)
    ensures RecordsInv(m.(drives := m.drives[id := d]))
  {
    UpdateKeeps(m, m.(drives := m.drives[id := d]), id);
  }

  /** Moving it while it writes its record. */
  lemma WriteKeeps(m: Manager, id: Id, r: Record, d: Drive)
    requires RecordsInv(m) && id in m.records
    requires FlagsOk(r) && DriveOk(r, d) && r.placement == m.records[id].placement
    requires r.Active() == m.records[id].Active() && r.cancelRequested == m.records[id].cancelRequested
    ensures RecordsInv(m.(records := m.records[id := r], drives := m.drives[id := d]))
  {
    UpdateKeeps(m, m.(records := m.records[id := r], drives := m.drives[id := d]), id);
  }

  lemma DriveBeginKeeps(m: Manager, id: Id)
    requires RecordsInv(m)
    ensures RecordsInv(DriveBegin(m, id))
  {
    if id in m.drives && m.drives[id] == Created {
      if id !in m.records {
        MoveKeeps(m, id, Closing(Failed, false));
      } else if m.records[id].cancelRequested {
        MoveKeeps(m, id, Executing);
      } else {
        WriteKeeps(m, id, m.records[id].(status := Running), Executing);
      }
    }
  }

  lemma AttachKeeps(m: Manager, id: Id)
    requires RecordsInv(m)
    ensures RecordsInv(AttachDriver(m, id))
  {
    hide ForegroundInv;
    if AttachDriver(m, id) != m { UpdateKeeps(m, AttachDriver(m, id), id); }
  }

  lemma DriveEndKeeps(m: Manager, id: Id, outcome: Status)
    requires RecordsInv(m)
    ensures RecordsInv(ExecutionEnds(m, id, outcome)) && RecordsInv(StopDone(m, id))
  {
    if id in m.drives {
      var d := m.drives[id];
      if d == Executing { MoveKeeps(m, id, Closing(outcome, false)); }
      if d.Stopping? { MoveKeeps(m, id, Closing(if d.timedOut then Failed else Cancelled, d.timedOut)); }
    }
  }

  lemma HardCancelKeeps(m: Manager, id: Id)
    requires RecordsInv(m)
    ensures RecordsInv(HardCancel(m, id))
  {
    if id in m.drives {
      var d := m.drives[id];
      MoveKeeps(m, id, Ended);
      if d == Executing { MoveKeeps(m, id, Closing(Cancelled, false)); }
      if d.Stopping? { MoveKeeps(m, id, Closing(Cancelled, d.timedOut)); }
    }
  }

  lemma DeadlineKeeps(m: Manager, id: Id)
    requires RecordsInv(m)
    ensures RecordsInv(Deadline(m, id))
  {
    if id in m.drives && m.drives[id] == Executing {
      if id in m.records && !m.records[id].cancelRequested {
        WriteKeeps(m, id, m.records[id].(timeoutTriggered := true), Stopping(true));
      } else {
        MoveKeeps(m, id, Stopping(id !in m.records));
      }
    }
  }

  lemma CancelRequestKeeps(m: Manager, id: Id, sweep: bool)
    requires RecordsInv(m)
    ensures RecordsInv(CancelRequest(m, id, sweep).0) && RecordsInv(AbandonCancel(m, id))
  {
    hide ForegroundInv;
    if CancelRequest(m, id, sweep).0 != m { UpdateKeeps(m, CancelRequest(m, id, sweep).0, id); }
    if AbandonCancel(m, id) != m { UpdateKeeps(m, AbandonCancel(m, id), id); }
  }

  lemma CommitKeepsForeground(m: Manager, id: Id, outcome: Status, preserveFailed: bool)
    requires ForegroundInv(m)
    ensures ForegroundInv(Commit(m, id, outcome, preserveFailed))
  {
    hide FinalStatus;
    if id in m.records && !m.records[id].status.Terminal() {
      var n := Commit(m, id, outcome, preserveFailed);
      assert n.records[id].status.Terminal();
      forall i ensures IsForeground(n.records, i) <==> n.foreground == Some(i) {
        assert i != id ==> (IsForeground(n.records, i) <==> IsForeground(m.records, i));
      }
    }
  }

  lemma CommitKeeps(m: Manager, id: Id, outcome: Status, preserveFailed: bool)
    requires RecordsInv(m)
    requires preserveFailed && id in m.records ==> m.records[id].timeoutTriggered
    requires id in m.drives && !m.drives[id].Ended? && id in m.records ==> m.records[id].cancelRequested
    ensures RecordsInv(Commit(m, id, outcome, preserveFailed))
  {
    CommitKeepsForeground(m, id, outcome, preserveFailed);
    hide ForegroundInv;
  }

  lemma FinishKeeps(m: Manager, id: Id, reported: Option<Status>)
    requires RecordsInv(m)
    ensures RecordsInv(DriveCommit(m, id, reported))
  {
    if id in m.drives && m.drives[id].Closing? {
      var d := m.drives[id];
      var n := m.(drives := m.drives[id := Ended]);
      CommitAfterEnd(m, id, reported);
      ClosingFacts(m, id);
      hide Commit, Outcome, RecordsInv, DriveCommit;
      MoveKeeps(m, id, Ended);
      CommitKeeps(n, id, Outcome(d, reported), d.timedOut);
    }
  }

  lemma CommitAfterEnd(m: Manager, id: Id, reported: Option<Status>)
    requires id in m.drives && m.drives[id].Closing?
    ensures
      DriveCommit(m, id, reported)
      == Commit(m.(drives := m.drives[id := Ended]), id, Outcome(m.drives[id], reported), m.drives[id].timedOut)
  {
    hide Outcome, FinalStatus;
  }

  lemma ClosingFacts(m: Manager, id: Id)
    requires RecordsInv(m) && id in m.drives && m.drives[id].Closing?
    ensures m.drives[id].timedOut && id in m.records ==> m.records[id].timeoutTriggered
  {
    hide ForegroundInv;
  }

  lemma CancelCommitKeeps(m: Manager, id: Id)
    requires RecordsInv(m)
    ensures RecordsInv(CancelCommit(m, id))
  {
    if id in m.cancellers {
      CommitKeeps(m, id, Cancelled, false);
      UpdateKeeps(Commit(m, id, Cancelled, false), CancelCommit(m, id), id);
    }
  }

  lemma DetachKeeps(m: Manager, id: Id)
    requires RecordsInv(m)
    ensures RecordsInv(Detach(m, id).0)
  {
    var n := Detach(m, id).0;
    assert forall i :: i != id ==> (IsForeground(n.records, i) <==> IsForeground(m.records, i));
  }

  lemma DeliverKeeps(cfg: Config, m: Manager, id: Id)
    requires RecordsInv(m)
    ensures RecordsInv(MarkDelivered(cfg, m, id))
  {
    var n := MarkDelivered(cfg, m, id);
    if n != m {
      EvictKeeps(cfg.retention, m.records[id := m.records[id].(notificationPending := false)], m.delivered + [id]);
      assert forall i :: IsForeground(n.records, i) <==> IsForeground(m.records, i);
    }
  }

  lemma ResetKeeps(m: Manager)
    requires RecordsInv(m)
    ensures RecordsInv(BeginReset(m)) && RecordsInv(BeginClose(m)) && RecordsInv(FinishReset(m))
  {
    SameForeground(m, BeginReset(m));
    SameForeground(m, BeginClose(m));
    if FinishReset(m) != m {
      assert forall i :: !IsForeground(FinishReset(m).records, i);
    }
  }

  lemma StepKeepsRecords(cfg: Config, m: Manager, e: Event)
    requires P.WaitersInRange(m.pool) && RecordsInv(m)
    ensures RecordsInv(Step(cfg, m, e))
  {
    hide RecordsInv, Start, DriveBegin, AttachDriver, ExecutionEnds, Deadline, StopDone, HardCancel;
    hide DriveCommit, CancelRequest, CancelCommit, AbandonCancel, Detach, MarkDelivered;
    hide BeginReset, BeginClose, FinishReset, P.Step, P.CloseLease;
    match e
    case StartTask(id, placement) => if IdFree(m, id) { StartKeeps(cfg, m, id, placement); }
    case Pool(pe) => PoolKeeps(m, P.Step(m.pool, pe), m.taken);
    case Begin(id) => DriveBeginKeeps(m, id);
    case Attach(id) => AttachKeeps(m, id);
    case Ends(id, outcome) => DriveEndKeeps(m, id, outcome);
    case DeadlinePasses(id) => DeadlineKeeps(m, id);
    case Stopped(id) => DriveEndKeeps(m, id, Failed);
    case CancelDrive(id) => HardCancelKeeps(m, id);
    case Finish(id, reported) => FinishKeeps(m, id, reported);
    case Cancel(id, sweep) => CancelRequestKeeps(m, id, sweep);
    case CommitCancel(id) => CancelCommitKeeps(m, id);
    case Abandon(id) => CancelRequestKeeps(m, id, true);
    case CloseLease(token) => PoolKeeps(m, P.CloseLease(m.pool, token), m.taken - {token});
    case DetachTask(id) => DetachKeeps(m, id);
    case Deliver(id) => DeliverKeeps(cfg, m, id);
    case Reset => ResetKeeps(m);
    case ResetClears => ResetKeeps(m);
    case Close => ResetKeeps(m);
  }

  lemma PoolKeeps(m: Manager, pool: P.Pool, taken: set<nat>)
    requires RecordsInv(m)
    ensures RecordsInv(m.(pool := pool)) && RecordsInv(m.(pool := pool, taken := taken))
  {
    SameForeground(m, m.(pool := pool));
    SameForeground(m, m.(pool := pool, taken := taken));
  }

  /** Eviction removes only finished tasks whose notification was delivered. */
  lemma {:induction false} EvictKeeps(retention: nat, records: map<Id, Record>, delivered: seq<Id>)
    ensures
      var (kept, left) := Evict(retention, records, delivered);
      && |left| <= retention
      && kept.Keys <= records.Keys
      && (forall id :: id in kept ==> kept[id] == records[id])
      && (forall id :: id in records && id !in kept ==>
          records[id].status.Terminal() && !records[id].notificationPending)
    decreases |delivered|
  {
    if |delivered| > retention {
      var oldest := delivered[0];
      var kept :=
        if oldest in records && records[oldest].status.Terminal() && !records[oldest].notificationPending
        then records - {oldest} else records;
      EvictKeeps(retention, kept, delivered[1..]);
    }
  }

  // --- Capacity ------------------------------------------------------------------

  /** The slots of the pool that tasks occupy. */
  function Slots(p: P.Pool): set<nat> {
    set t: nat | t < |p.leases| && !p.leases[t].closed && p.leases[t].owner.kind == "subagent"
  }

  /** Tasks use `try_acquire` only, so their calls never wait and never unwind. */
  ghost predicate TaskCallsHeld(p: P.Pool) {
    forall c :: 0 <= c < |p.calls| && p.calls[c].owner.kind == "subagent" ==> p.calls[c].phase.Held?
  }

  ghost predicate PoolOk(p: P.Pool) {
    P.Inv(p) && P.Busy(p) && TaskCallsHeld(p)
  }

  /** Leases keep their owners for ever. */
  ghost predicate SameOwners(p: P.Pool, q: P.Pool) {
    |p.leases| <= |q.leases| && forall t :: 0 <= t < |p.leases| ==> q.leases[t].owner == p.leases[t].owner
  }

  lemma {:induction false} GrantWaitersSlots(p: P.Pool)
    requires P.WaitersInRange(p) && TaskCallsHeld(p)
    ensures var q := P.GrantWaiters(p); Slots(q) == Slots(p) && TaskCallsHeld(q) && SameOwners(p, q)
    decreases |p.waiters|
  {
    if p.waiters != [] && |p.active| < p.limit {
      var c, rest := p.waiters[0], p.(waiters := p.waiters[1..]);
      var next := if p.calls[c].phase != P.Queued then rest else P.GrantTo(rest, c, P.Granted(|p.leases|));
      GrantWaitersSlots(next);
      assert Slots(next) == Slots(p);
    }
  }

  lemma CloseLeaseSlots(p: P.Pool, token: nat)
    requires P.WaitersInRange(p) && TaskCallsHeld(p) && P.SlotsMatch(p.limit, p.active, p.leases)
    ensures var q := P.CloseLease(p, token); Slots(q) == Slots(p) - {token} && TaskCallsHeld(q) && SameOwners(p, q)
  {
    if token < |p.leases| && !p.leases[token].closed {
      var freed := P.Freed(p, token);
      assert Slots(freed) == Slots(p) - {token};
      P.CloseLeaseIsFree(p, token);
      hide P.SlotsMatch, P.CloseLease;
      if !p.closed { GrantWaitersSlots(freed); }
    }
  }

  lemma UnwindSlots(p: P.Pool, c: nat)
    requires P.WaitersInRange(p) && TaskCallsHeld(p) && P.SlotsMatch(p.limit, p.active, p.leases)
        && P.LeasesLinked(p.calls, p.leases)
    ensures var q := P.Unwind(p, c); Slots(q) == Slots(p) && TaskCallsHeld(q) && SameOwners(p, q)
  {
    if c < |p.calls| && p.calls[c].phase.Unwinding? {
      var t := p.calls[c].phase.token;
      assert p.calls[c].Token() == Some(t);
      var q := P.Unwound(p, c);
      assert Slots(q) == Slots(p);
      CloseLeaseSlots(q, t);
    }
  }

  lemma AcquireSlots(p: P.Pool, owner: P.Owner)
    requires PoolOk(p)
    ensures
      var (q, r) := P.TryAcquire(p, owner);
      && SameOwners(p, q) && TaskCallsHeld(q)
      && (if r.Ok? && r.value.Some? && owner.kind == "subagent"
          then r.value.value == |p.leases| && |q.leases| == |p.leases| + 1 && q.leases[|p.leases|].owner == owner
               && Slots(q) == Slots(p) + {|p.leases|}
          else Slots(q) == Slots(p))
    ensures owner.kind != "subagent" ==>
      var q := P.Acquire(p, owner).0;
      SameOwners(p, q) && TaskCallsHeld(q) && Slots(q) == Slots(p)
  {
    hide P.Admission, P.SlotsMatch, P.FirstInFirstOut, P.LeasesLinked, P.CancelledKeepNone;
    var q := P.GrantNew(p, owner);
    assert Slots(q) == if owner.kind == "subagent" then Slots(p) + {|p.leases|} else Slots(p);
  }

  lemma ForeignSlots(p: P.Pool, e: P.Event)
    requires PoolOk(p) && Foreign(p, e)
    ensures PoolOk(P.Step(p, e)) && Slots(P.Step(p, e)) == Slots(p) && SameOwners(p, P.Step(p, e))
  {
    P.StepKeeps(p, e);
    ForeignSlotsOnly(p, e);
  }

  lemma ForeignSlotsOnly(p: P.Pool, e: P.Event)
    requires PoolOk(p) && Foreign(p, e)
    ensures TaskCallsHeld(P.Step(p, e)) && Slots(P.Step(p, e)) == Slots(p) && SameOwners(p, P.Step(p, e))
  {
    hide P.TryAcquire, P.Acquire, P.Unwind, P.CloseLease, P.FirstInFirstOut, P.SlotsMatch, P.CancelledKeepNone,
        P.LeasesLinked;
    match e
    case TryAcquireEvent(o) => AcquireSlots(p, o);
    case AcquireEvent(o) => AcquireSlots(p, o);
    case UnwindEvent(c) => UnwindSlots(p, c);
    case CloseLeaseEvent(t) => CloseLeaseSlots(p, t);
    case ResumeEvent(c) => assert Slots(P.Step(p, e)) == Slots(p);
    case CancelEvent(c) => assert Slots(P.Step(p, e)) == Slots(p);
    case ClosePoolEvent => assert Slots(P.Step(p, e)) == Slots(p);
  }

  /** Every slot that tasks occupy is the lease of one active record, is about to be closed, or was dropped. */
  ghost predicate LeaseInv(m: Manager) {
    && PoolOk(m.pool)
    && (forall id :: id in m.records && m.records[id].lease.Some? ==>
          && m.records[id].lease.value < |m.pool.leases|
          && m.pool.leases[m.records[id].lease.value].owner == TaskOwner(id))
    && OwnLeases(m.records)
    && RecordLeases(m.records) !! m.taken !! m.dropped
    && Slots(m.pool) == RecordLeases(m.records) + m.taken + m.dropped
  }

  ghost predicate OwnLeases(records: map<Id, Record>) {
    forall i, j :: i in records && j in records && records[i].lease.Some? && records[i].lease == records[j].lease ==>
        i == j
  }

  /** A step that moves no lease. */
  lemma SameLeases(m: Manager, n: Manager)
    requires LeaseInv(m) && n.pool == m.pool && n.taken == m.taken && n.dropped == m.dropped
    requires forall id :: id in n.records ==> id in m.records && n.records[id].lease == m.records[id].lease
    requires forall id :: id in m.records && id !in n.records ==> m.records[id].lease.None?
    ensures LeaseInv(n)
  {
    assert RecordLeases(n.records) == RecordLeases(m.records);
  }

  lemma StartLeases(cfg: Config, m: Manager, id: Id, placement: Placement)
    requires LeaseInv(m)
    ensures LeaseInv(Start(cfg, m, id, placement).0)
  {
    hide P.SlotsMatch, P.LeasesLinked, P.CancelledKeepNone, P.FirstInFirstOut, P.TryAcquire, TaskCallsHeld, OwnLeases,
        RecordLeases, Slots;
    var n := Start(cfg, m, id, placement).0;
    if n != m {
      AcquireSlots(m.pool, TaskOwner(id));
      P.StepKeeps(m.pool, P.TryAcquireEvent(TaskOwner(id)));
      StartAccounting(m, n, id);
    }
  }

  lemma StartAccounting(m: Manager, n: Manager, id: Id)
    requires LeaseInv(m) && id !in m.records && id in n.records && n.records == m.records[id := n.records[id]]
    requires n.records[id].lease == Some(|m.pool.leases|) && n.taken == m.taken && n.dropped == m.dropped
    requires PoolOk(n.pool) && SameOwners(m.pool, n.pool) && |n.pool.leases| == |m.pool.leases| + 1
    requires n.pool.leases[|m.pool.leases|].owner == TaskOwner(id)
    requires Slots(n.pool) == Slots(m.pool) + {|m.pool.leases|}
    ensures LeaseInv(n)
  {
    hide PoolOk;
    AddedLease(m.records, id, n.records[id]);
    assert |m.pool.leases| !in Slots(m.pool);
  }

  lemma CommitLeases(m: Manager, id: Id, outcome: Status, preserveFailed: bool)
    requires LeaseInv(m)
    ensures LeaseInv(Commit(m, id, outcome, preserveFailed))
  {
    hide PoolOk;
    var n := Commit(m, id, outcome, preserveFailed);
    if n != m {
      RemovedLease(m.records, id, n.records[id]);
    }
  }

  lemma AddedLease(records: map<Id, Record>, id: Id, r: Record)
    requires id !in records && r.lease.Some?
    ensures RecordLeases(records[id := r]) == RecordLeases(records) + {r.lease.value}
  {
    var more := records[id := r];
    forall t | t in RecordLeases(records) ensures t in RecordLeases(more) {
      var i :| i in records && records[i].lease.Some? && records[i].lease.value == t;
      assert more[i] == records[i];
    }
    assert more[id].lease.value in RecordLeases(more);
  }

  lemma RemovedLease(records: map<Id, Record>, id: Id, r: Record)
    requires id in records && r.lease.None? && OwnLeases(records)
    ensures records[id].lease.Some? ==> records[id].lease.value in RecordLeases(records)
    ensures RecordLeases(records[id := r])
         == RecordLeases(records) - if records[id].lease.Some? then {records[id].lease.value} else {}
  {
    var less := records[id := r];
    forall t | t in RecordLeases(records) && records[id].lease != Some(t) ensures t in RecordLeases(less) {
      var i :| i in records && records[i].lease.Some? && records[i].lease.value == t;
      assert less[i] == records[i];
    }
    forall t | t in RecordLeases(less) ensures t in RecordLeases(records) && records[id].lease != Some(t) {
      var i :| i in less && less[i].lease.Some? && less[i].lease.value == t;
      assert less[i] == records[i];
    }
  }

  lemma ClosePoolOk(p: P.Pool, token: nat)
    requires PoolOk(p)
    ensures var q := P.CloseLease(p, token); PoolOk(q) && Slots(q) == Slots(p) - {token} && SameOwners(p, q)
  {
    hide P.CloseLease;
    CloseLeaseSlots(p, token);
    P.CloseLeaseKeeps(p, token);
  }

  lemma CloseTakenLeases(m: Manager, token: nat)
    requires P.WaitersInRange(m.pool) && LeaseInv(m)
    ensures LeaseInv(CloseTaken(m, token))
  {
    if token in m.taken {
      ClosePoolOk(m.pool, token);
      ClosedAccounting(m, CloseTaken(m, token), token);
    }
  }

  lemma ClosedAccounting(m: Manager, n: Manager, token: nat)
    requires LeaseInv(m) && token in m.taken && n == m.(pool := n.pool, taken := m.taken - {token})
    requires PoolOk(n.pool) && Slots(n.pool) == Slots(m.pool) - {token} && SameOwners(m.pool, n.pool)
    ensures LeaseInv(n)
  {
    hide PoolOk, Slots, RecordLeases, TaskOwner;
  }

  lemma FinishResetLeases(m: Manager)
    requires LeaseInv(m)
    ensures LeaseInv(FinishReset(m))
  {
    hide PoolOk;
    if FinishReset(m) != m { assert RecordLeases(FinishReset(m).records) == {}; }
  }

  lemma CancelCommitLeases(m: Manager, id: Id)
    requires LeaseInv(m)
    ensures LeaseInv(CancelCommit(m, id))
  {
    if id in m.cancellers {
      CommitLeases(m, id, Cancelled, false);
      hide LeaseInv, Commit;
      SameLeases(Commit(m, id, Cancelled, false), CancelCommit(m, id));
    }
  }

  lemma StepKeepsLeases(cfg: Config, m: Manager, e: Event)
    requires P.WaitersInRange(m.pool) && LeaseInv(m) && TasksInv(m)
    ensures LeaseInv(Step(cfg, m, e))
  {
    hide Start, DriveBegin, AttachDriver, ExecutionEnds, Deadline, StopDone, HardCancel, DriveCommit,
      CancelRequest, CancelCommit, AbandonCancel, CloseTaken, Detach, MarkDelivered, BeginReset, FinishReset,
      BeginClose, IdFree, SweepDone, P.Step, P.WaitersInRange, LeaseInv, TasksInv, Foreign;
    match e
    case StartTask(id, placement) => StartLeases(cfg, m, id, placement);
    case Pool(pe) => if Foreign(m.pool, pe) { PoolLeases(m, pe); }
    case Finish(id, reported) => FinishLeases(m, id, reported);
    case CommitCancel(id) => CancelCommitLeases(m, id);
    case CloseLease(token) => CloseTakenLeases(m, token);
    case Deliver(id) => DeliverLeases(cfg, m, id);
    case ResetClears => FinishResetLeases(m);
    case _ => QuietLeases(cfg, m, e);
  }

  lemma QuietLeases(cfg: Config, m: Manager, e: Event)
    requires P.WaitersInRange(m.pool) && LeaseInv(m) && Quiet(e)
    ensures LeaseInv(Step(cfg, m, e))
  {
    hide Step, LeaseInv, P.WaitersInRange;
    QuietStep(cfg, m, e);
    SameLeases(m, Step(cfg, m, e));
  }

  predicate Quiet(e: Event) {
    !e.StartTask? && !e.Pool? && !e.Finish? && !e.CommitCancel? && !e.CloseLease? && !e.Deliver? && !e.ResetClears?
  }

  ghost predicate SameLeaseFields(m: Manager, n: Manager) {
    && n.pool == m.pool && n.taken == m.taken && n.dropped == m.dropped
    && (forall id :: id in n.records ==> id in m.records && n.records[id].lease == m.records[id].lease)
    && (forall id :: id in m.records ==> id in n.records)
  }

  lemma QuietNothing(m: Manager)
    ensures SameLeaseFields(m, m)
  {
  }

  /** Writing a record without touching its lease. */
  lemma QuietWrite(m: Manager, n: Manager, id: Id)
    requires id in m.records && id in n.records && n.records == m.records[id := n.records[id]]
    requires n.records[id].lease == m.records[id].lease
    requires n.pool == m.pool && n.taken == m.taken && n.dropped == m.dropped
    ensures SameLeaseFields(m, n)
  {
  }

  lemma QuietBegin(m: Manager, id: Id)
    ensures SameLeaseFields(m, DriveBegin(m, id))
  {
    hide SameLeaseFields;
    if id in m.drives && m.drives[id] == Created && id in m.records && !m.records[id].cancelRequested {
      QuietWrite(m, DriveBegin(m, id), id);
    } else {
      QuietSame(m, DriveBegin(m, id));
    }
  }

  lemma QuietSame(m: Manager, n: Manager)
    requires n.records == m.records && n.pool == m.pool && n.taken == m.taken && n.dropped == m.dropped
    ensures SameLeaseFields(m, n)
  {
  }

  lemma QuietAttach(m: Manager, id: Id)
    ensures SameLeaseFields(m, AttachDriver(m, id))
  {
    hide SameLeaseFields;
    if id in m.drives && m.drives[id] == Executing && id in m.records && !m.records[id].hasDriver {
      QuietWrite(m, AttachDriver(m, id), id);
    } else {
      QuietSame(m, AttachDriver(m, id));
    }
  }

  lemma QuietDeadline(m: Manager, id: Id)
    ensures SameLeaseFields(m, Deadline(m, id))
  {
    hide SameLeaseFields;
    if id in m.drives && m.drives[id] == Executing && id in m.records && !m.records[id].cancelRequested {
      QuietWrite(m, Deadline(m, id), id);
    } else {
      QuietSame(m, Deadline(m, id));
    }
  }

  lemma QuietMove(m: Manager, id: Id, outcome: Status)
    ensures SameLeaseFields(m, ExecutionEnds(m, id, outcome)) && SameLeaseFields(m, StopDone(m, id))
  {
    hide SameLeaseFields;
    QuietSame(m, ExecutionEnds(m, id, outcome));
    QuietSame(m, StopDone(m, id));
  }

  lemma QuietHardCancel(m: Manager, id: Id)
    ensures SameLeaseFields(m, HardCancel(m, id))
  {
    hide SameLeaseFields;
    QuietSame(m, HardCancel(m, id));
  }

  lemma QuietRequest(m: Manager, id: Id, sweep: bool)
    ensures SameLeaseFields(m, CancelRequest(m, id, sweep).0) && SameLeaseFields(m, AbandonCancel(m, id))
  {
  }

  lemma QuietRest(m: Manager, id: Id)
    ensures SameLeaseFields(m, Detach(m, id).0)
    ensures SameLeaseFields(m, BeginReset(m)) && SameLeaseFields(m, BeginClose(m))
  {
  }

  lemma QuietStep(cfg: Config, m: Manager, e: Event)
    requires P.WaitersInRange(m.pool) && Quiet(e)
    ensures SameLeaseFields(m, Step(cfg, m, e))
  {
    hide DriveBegin, AttachDriver, ExecutionEnds, Deadline, StopDone, HardCancel, CancelRequest, AbandonCancel, Detach;
    hide BeginReset, BeginClose, P.WaitersInRange, SameLeaseFields;
    match e
    case Begin(id) => QuietBegin(m, id);
    case Attach(id) => QuietAttach(m, id);
    case Ends(id, outcome) => QuietMove(m, id, outcome);
    case DeadlinePasses(id) => QuietDeadline(m, id);
    case Stopped(id) => QuietMove(m, id, Failed);
    case CancelDrive(id) => QuietHardCancel(m, id);
    case Cancel(id, sweep) => QuietRequest(m, id, sweep); QuietNothing(m);
    case Abandon(id) => QuietRequest(m, id, false);
    case DetachTask(id) => QuietRest(m, id);
    case Reset => QuietRest(m, "");
    case Close => QuietRest(m, "");
  }

  lemma PoolLeases(m: Manager, pe: P.Event)
    requires LeaseInv(m) && Foreign(m.pool, pe)
    ensures LeaseInv(m.(pool := P.Step(m.pool, pe)))
  {
    ForeignSlots(m.pool, pe);
  }

  lemma FinishLeases(m: Manager, id: Id, reported: Option<Status>)
    requires LeaseInv(m)
    ensures LeaseInv(DriveCommit(m, id, reported))
  {
    if id in m.drives && m.drives[id].Closing? {
      var d := m.drives[id];
      CommitLeases(m, id, Outcome(d, reported), d.timedOut);
      SameLeases(Commit(m, id, Outcome(d, reported), d.timedOut), DriveCommit(m, id, reported));
    }
  }

  lemma DeliverLeases(cfg: Config, m: Manager, id: Id)
    requires LeaseInv(m) && TasksInv(m)
    ensures LeaseInv(MarkDelivered(cfg, m, id))
  {
    hide PoolOk;
    if MarkDelivered(cfg, m, id) != m {
      EvictKeeps(cfg.retention, m.records[id := m.records[id].(notificationPending := false)], m.delivered + [id]);
      SameLeases(m, MarkDelivered(cfg, m, id));
    }
  }

  // --- Whole runs ------------------------------------------------------------------

  /** The manager after the events `es`, with a fresh pool of `limit` slots. */
  ghost function Run(cfg: Config, limit: nat, es: seq<Event>): (m: Manager)
    ensures P.WaitersInRange(m.pool) && RecordsInv(m) && LeaseInv(m)
    decreases |es|
  {
    if es == [] then InitOk(P.Init(limit)); Init(P.Init(limit))
    else
      var q := Run(cfg, limit, es[..|es| - 1]);
      StepOk(cfg, q, es[|es| - 1]);
      Step(cfg, q, es[|es| - 1])
  }

  lemma InitOk(pool: P.Pool)
    requires pool == P.Init(pool.limit)
    ensures P.WaitersInRange(pool) && RecordsInv(Init(pool)) && LeaseInv(Init(pool))
  {
    assert Slots(pool) == {};
  }

  lemma StepOk(cfg: Config, m: Manager, e: Event)
    requires P.WaitersInRange(m.pool) && RecordsInv(m) && LeaseInv(m)
    ensures RecordsInv(Step(cfg, m, e)) && LeaseInv(Step(cfg, m, e)) && P.WaitersInRange(Step(cfg, m, e).pool)
  {
    StepKeepsRecords(cfg, m, e);
    StepKeepsLeases(cfg, m, e);
    hide Step;
  }

  /**
    In every run: the foreground pointer names exactly the active foreground task;
    each active record owns one open slot of its own and a finished one owns none;
    a task never has both a cancellation and a timeout; a task whose cancellation
    was requested ends cancelled or completed; the driver is told of a requested
    cancellation exactly when there is one.
  */
  lemma RunGuarantees(cfg: Config, limit: nat, es: seq<Event>, id: Id)
    ensures
      var m := Run(cfg, limit, es);
      && (m.foreground == Some(id) <==> IsForeground(m.records, id))
      && (id in m.records ==>
            var r := m.records[id];
            && (r.Active() <==> r.lease.Some?)
            && (r.Active() ==> r.lease.value in Slots(m.pool) && m.pool.leases[r.lease.value].owner == TaskOwner(id))
            && (forall other :: other in m.records && other != id && r.Active() ==> m.records[other].lease != r.lease)
            && !(r.cancelRequested && r.timeoutTriggered)
            && (r.cancelRequested && r.status.Terminal() ==> r.status.Cancelled? || r.status.Completed?)
            && (r.cancelForwarded <==> r.cancelRequested && r.hasDriver))
  {
    var m := Run(cfg, limit, es);
    hide P.Inv, P.Busy, P.WaitersInRange;
    if id in m.records && m.records[id].Active() {
      assert m.records[id].lease.value in RecordLeases(m.records);
    }
  }

  predicate Same(r: Record, q: Record) {
    r.status == q.status && r.lease == q.lease && r.cancelRequested == q.cancelRequested
        && r.timeoutTriggered == q.timeoutTriggered
  }

  /** A terminal status is final: whatever happens next, the record keeps it or leaves the table. */
  lemma TerminalIsFinal(cfg: Config, m: Manager, e: Event, id: Id)
    requires P.WaitersInRange(m.pool) && TasksInv(m) && id in m.records && m.records[id].status.Terminal()
    ensures
      var n := Step(cfg, m, e);
      id in n.records ==> Same(n.records[id], m.records[id])
  {
    hide *;
    if e.Deliver? {
      TerminalSurvivesDelivery(cfg, m, e, id);
    } else if e.Begin? || e.Attach? || e.DeadlinePasses? {
      TerminalSurvivesWrite(cfg, m, e, id);
    } else if e.Finish? || e.CommitCancel? || e.Cancel? || e.DetachTask? {
      TerminalSurvivesCommit(cfg, m, e, id);
    } else if e.StartTask? {
      TerminalSurvivesStart(cfg, m, e, id);
    } else {
      TerminalSurvivesRest(cfg, m, e, id);
    }
  }

  lemma TerminalSurvivesStart(cfg: Config, m: Manager, e: Event, id: Id)
    requires P.WaitersInRange(m.pool) && e.StartTask?
    requires TasksInv(m) && id in m.records && m.records[id].status.Terminal()
    ensures id in Step(cfg, m, e).records && Same(Step(cfg, m, e).records[id], m.records[id])
  {
    hide DriveBegin, AttachDriver, ExecutionEnds, Deadline, StopDone, HardCancel, DriveCommit, CancelRequest,
      CancelCommit, AbandonCancel, CloseTaken, Detach, MarkDelivered, BeginReset, FinishReset, BeginClose,
      SweepDone, P.Step, P.WaitersInRange, P.TryAcquire, ActiveIds;
  }

  lemma TerminalSurvivesRest(cfg: Config, m: Manager, e: Event, id: Id)
    requires P.WaitersInRange(m.pool) && id in m.records
    requires !e.StartTask? && !e.Deliver? && !e.Begin? && !e.Attach? && !e.DeadlinePasses?
    requires !e.Finish? && !e.CommitCancel? && !e.Cancel? && !e.DetachTask?
    ensures var n := Step(cfg, m, e); id in n.records ==> Same(n.records[id], m.records[id])
  {
    hide Start, DriveBegin, AttachDriver, Deadline, DriveCommit, CancelRequest, CancelCommit, Detach,
      MarkDelivered, IdFree, SweepDone, P.Step, P.WaitersInRange, P.CloseLease, ActiveIds, RecordLeases;
  }

  lemma TerminalSurvivesDelivery(cfg: Config, m: Manager, e: Event, id: Id)
    requires P.WaitersInRange(m.pool) && id in m.records && e.Deliver?
    ensures id in Step(cfg, m, e).records ==> Same(Step(cfg, m, e).records[id], m.records[id])
  {
    hide P.WaitersInRange, P.Step, Start, DriveBegin, AttachDriver, ExecutionEnds, Deadline, StopDone, HardCancel,
      DriveCommit, CancelRequest, CancelCommit, CloseTaken, Detach, BeginReset, FinishReset, BeginClose, Evict;
    if e.id in m.records {
      var cleared := m.records[e.id].(notificationPending := false);
      EvictKeeps(cfg.retention, m.records[e.id := cleared], m.delivered + [e.id]);
    }
  }

  lemma TerminalSurvivesWrite(cfg: Config, m: Manager, e: Event, id: Id)
    requires P.WaitersInRange(m.pool) && TasksInv(m) && id in m.records && m.records[id].status.Terminal()
    requires e.Begin? || e.Attach? || e.DeadlinePasses?
    ensures id in Step(cfg, m, e).records && Same(Step(cfg, m, e).records[id], m.records[id])
  {
    hide TasksInv, P.WaitersInRange, P.Step, Start, ExecutionEnds, StopDone, HardCancel, DriveCommit, CancelRequest,
      CancelCommit, CloseTaken, Detach, MarkDelivered, BeginReset, FinishReset, BeginClose;
    if id in m.drives { DriveKnows(m, id); }
  }

  lemma DriveKnows(m: Manager, id: Id)
    requires TasksInv(m) && id in m.records && m.records[id].status.Terminal() && id in m.drives
    ensures m.records[id].cancelRequested || m.drives[id].Ended?
  {
    hide ForegroundInv, FlagsOk, P.WaitersInRange;
  }

  lemma TerminalSurvivesCommit(cfg: Config, m: Manager, e: Event, id: Id)
    requires P.WaitersInRange(m.pool) && id in m.records && m.records[id].status.Terminal()
    requires e.Finish? || e.CommitCancel? || e.Cancel? || e.DetachTask?
    ensures id in Step(cfg, m, e).records && Same(Step(cfg, m, e).records[id], m.records[id])
  {
    hide *;
    if e.Finish? || e.CommitCancel? {
      TerminalSurvivesFinish(cfg, m, e, id);
    } else {
      TerminalSurvivesRequest(cfg, m, e, id);
    }
  }

  lemma TerminalSurvivesFinish(cfg: Config, m: Manager, e: Event, id: Id)
    requires P.WaitersInRange(m.pool) && id in m.records && m.records[id].status.Terminal()
    requires e.Finish? || e.CommitCancel?
    ensures id in Step(cfg, m, e).records && Same(Step(cfg, m, e).records[id], m.records[id])
  {
    hide Start, DriveBegin, AttachDriver, ExecutionEnds, Deadline, StopDone, HardCancel, CancelRequest,
      AbandonCancel, CloseTaken, Detach, MarkDelivered, BeginReset, FinishReset, BeginClose, IdFree, SweepDone,
      P.Step, P.WaitersInRange, FinalStatus, Outcome;
  }

  lemma TerminalSurvivesRequest(cfg: Config, m: Manager, e: Event, id: Id)
    requires P.WaitersInRange(m.pool) && id in m.records && m.records[id].status.Terminal()
    requires e.Cancel? || e.DetachTask?
    ensures id in Step(cfg, m, e).records && Same(Step(cfg, m, e).records[id], m.records[id])
  {
    hide Start, DriveBegin, AttachDriver, ExecutionEnds, Deadline, StopDone, HardCancel, DriveCommit,
      CancelCommit, AbandonCancel, CloseTaken, MarkDelivered, BeginReset, FinishReset, BeginClose, IdFree,
      SweepDone, P.Step, P.WaitersInRange;
  }

  /** Only `reset` removes a record that is active or whose notification is still pending. */
  lemma OnlyDeliveredRecordsLeave(cfg: Config, m: Manager, e: Event, id: Id)
    requires P.WaitersInRange(m.pool) && id in m.records && id !in Step(cfg, m, e).records
    ensures e.ResetClears? || (e.Deliver? && m.records[id].status.Terminal()
        && (m.records[id].notificationPending ==> id == e.id))
  {
    hide P.Step, P.CloseLease, P.WaitersInRange, ActiveIds, RecordLeases, FinalStatus, Outcome, Evict;
    if e.StartTask? {
      hide P.TryAcquire;
    } else if e.Deliver? {
      OnlyDeliveredEvicted(cfg, m, e, id);
    } else if e.Begin? || e.Attach? || e.DeadlinePasses? || e.Finish? || e.CommitCancel? || e.Cancel? || e.DetachTask? {
      RecordStays(cfg, m, e, id);
    }
  }

  lemma RecordStays(cfg: Config, m: Manager, e: Event, id: Id)
    requires P.WaitersInRange(m.pool) && id in m.records
    requires e.Begin? || e.Attach? || e.DeadlinePasses? || e.Finish? || e.CommitCancel? || e.Cancel? || e.DetachTask?
    ensures id in Step(cfg, m, e).records
  {
    hide *;
    if e.Begin? || e.Attach? || e.DeadlinePasses? {
      RecordStaysOnWrite(cfg, m, e, id);
    } else {
      RecordStaysOnCommit(cfg, m, e, id);
    }
  }

  lemma RecordStaysOnWrite(cfg: Config, m: Manager, e: Event, id: Id)
    requires P.WaitersInRange(m.pool) && id in m.records
    requires e.Begin? || e.Attach? || e.DeadlinePasses?
    ensures id in Step(cfg, m, e).records
  {
    hide Step, SameLeaseFields;
    QuietStep(cfg, m, e);
    QuietKeepsIds(m, Step(cfg, m, e));
  }

  lemma QuietKeepsIds(m: Manager, n: Manager)
    requires SameLeaseFields(m, n)
    ensures m.records.Keys <= n.records.Keys
  {
  }

  lemma RecordStaysOnCommit(cfg: Config, m: Manager, e: Event, id: Id)
    requires P.WaitersInRange(m.pool) && id in m.records
    requires e.Finish? || e.CommitCancel? || e.Cancel? || e.DetachTask?
    ensures id in Step(cfg, m, e).records
  {
    hide Start, DriveBegin, AttachDriver, ExecutionEnds, Deadline, StopDone, HardCancel, AbandonCancel,
      CloseTaken, MarkDelivered, BeginReset, FinishReset, BeginClose, IdFree, SweepDone, P.Step,
      P.WaitersInRange, FinalStatus, Outcome;
  }

  lemma OnlyDeliveredEvicted(cfg: Config, m: Manager, e: Event, id: Id)
    requires P.WaitersInRange(m.pool) && e.Deliver? && id in m.records && id !in Step(cfg, m, e).records
    ensures m.records[id].status.Terminal() && (m.records[id].notificationPending ==> id == e.id)
  {
    hide P.WaitersInRange, P.Step, Start, DriveBegin, AttachDriver, ExecutionEnds, Deadline, StopDone, HardCancel,
      DriveCommit, CancelRequest, CancelCommit, CloseTaken, Detach, BeginReset, FinishReset, BeginClose, Evict;
    if e.id in m.records {
      var cleared := m.records[e.id].(notificationPending := false);
      EvictKeeps(cfg.retention, m.records[e.id := cleared], m.delivered + [e.id]);
    }
  }

  // --- What reset does to the capacity of the pool ------------------------------------

  /** Clearing the table loses a slot exactly when it removes a record that is still active. */
  lemma ResetLosesSlotsIff(m: Manager)
    requires RecordsInv(m) && LeaseInv(m) && m.clearing && SweepDone(m)
    ensures FinishReset(m).dropped == m.dropped <==> ActiveIds(m.records) == {}
  {
    hide PoolOk, Slots;
    if ActiveIds(m.records) != {} {
      var id :| id in ActiveIds(m.records);
      assert m.records[id].lease.value in RecordLeases(m.records);
    } else {
      forall id | id in m.records ensures m.records[id].lease.None? {
        assert m.records[id].Active() <==> id in ActiveIds(m.records);
      }
    }
  }

  lemma DroppedGrows(cfg: Config, m: Manager, e: Event)
    requires P.WaitersInRange(m.pool)
    ensures m.dropped <= Step(cfg, m, e).dropped
  {
    hide P.Step, P.CloseLease, P.TryAcquire, P.WaitersInRange, Evict, RecordLeases, ActiveIds, FinalStatus, Outcome;
    if e.Finish? || e.CommitCancel? {
    } else if e.StartTask? || e.Deliver? {
    }
  }

  /** A slot that reset lost stays occupied for ever. */
  lemma LostSlotsStayOccupied(cfg: Config, limit: nat, es: seq<Event>, e: Event)
    ensures
      var m := Run(cfg, limit, es);
      m.dropped <= Step(cfg, m, e).dropped <= Slots(Step(cfg, m, e).pool)
  {
    var m := Run(cfg, limit, es);
    StepOk(cfg, m, e);
    DroppedGrows(cfg, m, e);
    hide PoolOk, Slots, RecordsInv, Step;
  }

  lemma RunExtends(cfg: Config, limit: nat, es: seq<Event>, e: Event)
    ensures Run(cfg, limit, es + [e]) == Step(cfg, Run(cfg, limit, es), e)
  {
    hide RecordsInv, LeaseInv, Step;
    assert (es + [e])[..|es|] == es;
  }

  /** A task whose deadline passed while closing its driver hangs. */
  function HangingRun(): seq<Event> {
    [] + [StartTask("t", Background)] + [Begin("t")] + [DeadlinePasses("t")] + [Stopped("t")]
  }

  lemma HangingTask(cfg: Config)
    requires cfg.maxActive >= 1
    ensures
      var m := Run(cfg, 8, HangingRun());
      && m.records == map["t" := Record(Running, Background, Some(0), false, false, false, true, false)]
      && m.drives == map["t" := Closing(Failed, true)]
      && !m.resetting && !m.closed && !m.clearing && m.cancellers == map[] && m.dropped == {}
  {
    hide *;
    var start := StartTask("t", Background);
    StartOnEmpty(cfg);
    FirstStart(cfg, start);
    RunExtends(cfg, 8, [] + [start], Begin("t"));
    RunExtends(cfg, 8, [] + [start] + [Begin("t")], DeadlinePasses("t"));
    RunExtends(cfg, 8, [] + [start] + [Begin("t")] + [DeadlinePasses("t")], Stopped("t"));
    var m1 := Run(cfg, 8, [] + [start]);
    HangingSteps(cfg, m1);
    HangingRunIs();
  }

  lemma HangingRunIs()
    ensures HangingRun() == [] + [StartTask("t", Background)] + [Begin("t")] + [DeadlinePasses("t")] + [Stopped("t")]
  {
  }

  lemma FirstStart(cfg: Config, start: Event)
    requires start == StartTask("t", Background)
    ensures Run(cfg, 8, [] + [start]) == Start(cfg, Init(P.Init(8)), "t", Background).0
  {
    hide RecordsInv, LeaseInv, Start;
    RunExtends(cfg, 8, [], start);
  }

  lemma HangingSteps(cfg: Config, m: Manager)
    requires P.WaitersInRange(m.pool)
    requires m.records == map["t" := Record(Registered, Background, Some(0), false, false, false, false, false)]
    requires m.drives == map["t" := Created]
    ensures
      var n := Step(cfg, Step(cfg, Step(cfg, m, Begin("t")), DeadlinePasses("t")), Stopped("t"));
      && n.records == map["t" := Record(Running, Background, Some(0), false, false, false, true, false)]
      && n.drives == map["t" := Closing(Failed, true)]
      && n == m.(records := n.records, drives := n.drives)
  {
  }

  lemma StartOnEmpty(cfg: Config)
    requires cfg.maxActive >= 1
    ensures
      var m := Start(cfg, Init(P.Init(8)), "t", Background).0;
      && m.records == map["t" := Record(Registered, Background, Some(0), false, false, false, false, false)]
      && m.drives == map["t" := Created]
      && !m.resetting && !m.closed && !m.clearing && m.cancellers == map[] && m.dropped == {}
  {
    assert Text.Strip("t") == "t" by {
      assert Text.StripLeft("t") == "t";
      assert Text.StripRight("t") == "t";
    }
    assert P.Admission(P.Init(8), TaskOwner("t")).None?;
  }

  lemma ResetDuringCleanup(m: Manager)
    requires m.records == map["t" := Record(Running, Background, Some(0), false, false, false, true, false)]
    requires m.drives == map["t" := Closing(Failed, true)] && m.cancellers == map[] && m.dropped == {}
    requires !m.resetting && !m.closed && !m.clearing
    ensures
      var n := FinishReset(HardCancel(BeginReset(m), "t"));
      n.records == map[] && n.dropped == {0}
  {
    assert ActiveIds(m.records) == {"t"};
    assert RecordLeases(m.records) == {0} by {
      assert m.records["t"].lease.value in RecordLeases(m.records);
    }
  }

  /**
    Reset then cancels the coroutine inside its `finally` block, where no commit follows,
    and clears the table: the slot of the task is lost.
  */
  lemma ResetCanLoseASlot(cfg: Config)
    requires cfg.maxActive >= 1
    ensures
      var m := Run(cfg, 8, HangingRun() + [Reset] + [CancelDrive("t")] + [ResetClears]);
      m.records == map[] && m.dropped == {0} && 0 in Slots(m.pool)
  {
    hide RecordsInv, PoolOk, Slots, RecordLeases, OwnLeases;
    hide BeginReset, HardCancel, FinishReset;
    HangingTask(cfg);
    ResetDuringCleanup(Run(cfg, 8, HangingRun()));
    ResetRun(cfg, HangingRun());
    hide HangingRun;
  }

  lemma ResetRun(cfg: Config, es: seq<Event>)
    ensures Run(cfg, 8, es + [Reset] + [CancelDrive("t")] + [ResetClears])
         == FinishReset(HardCancel(BeginReset(Run(cfg, 8, es)), "t"))
  {
    hide *;
    RunExtends(cfg, 8, es, Reset);
    RunExtends(cfg, 8, es + [Reset], CancelDrive("t"));
    RunExtends(cfg, 8, es + [Reset] + [CancelDrive("t")], ResetClears);
    ResetSteps(cfg, Run(cfg, 8, es));
    ResetSteps(cfg, Run(cfg, 8, es + [Reset]));
    ResetSteps(cfg, Run(cfg, 8, es + [Reset] + [CancelDrive("t")]));
  }

  lemma ResetSteps(cfg: Config, m: Manager)
    requires P.WaitersInRange(m.pool)
    ensures Step(cfg, m, Reset) == BeginReset(m) && Step(cfg, m, ResetClears) == FinishReset(m)
    ensures Step(cfg, m, CancelDrive("t")) == HardCancel(m, "t")
  {
    hide BeginReset, FinishReset, HardCancel;
  }

  /** No coroutine is cancelled where nobody else would commit for it, and no caller of `cancel` gives up. */
  predicate Gentle(m: Manager, e: Event) {
    && !e.Abandon?
    && (e.CancelDrive? && e.id in m.drives && (m.drives[e.id].Closing? || m.drives[e.id].Created?) ==>
        e.id in m.cancellers)
  }

  /** Every active task has somebody left who will commit it, and reset waits for all of them. */
  ghost predicate Attended(m: Manager) {
    && (forall id :: id in m.records && m.records[id].Active() && id in m.drives && m.drives[id].Ended? ==>
        id in m.cancellers)
    && (m.clearing ==> m.resetting && ActiveIds(m.records) <= m.sweep)
  }

  lemma GentleStepKeepsAttended(cfg: Config, m: Manager, e: Event)
    requires P.WaitersInRange(m.pool) && TasksInv(m) && Attended(m) && Gentle(m, e)
    ensures Attended(Step(cfg, m, e))
  {
    hide P.Step, P.CloseLease, P.WaitersInRange, RecordLeases;
    if e.Begin? || e.Attach? {
      GentleWriteKeepsAttended(cfg, m, e);
    } else if e.DeadlinePasses? {
      GentleDeadlineKeepsAttended(cfg, m, e);
    } else if e.Ends? || e.Stopped? || e.CancelDrive? {
      GentleMoveKeepsAttended(cfg, m, e);
    } else if e.Finish? || e.CommitCancel? || e.Cancel? || e.DetachTask? {
      GentleCommitKeepsAttended(cfg, m, e);
    } else {
      if e.StartTask? { hide P.TryAcquire; }
      if e.Deliver? && e.id in m.records {
        var cleared := m.records[e.id].(notificationPending := false);
        EvictKeeps(cfg.retention, m.records[e.id := cleared], m.delivered + [e.id]);
      }
    }
  }

  lemma GentleWriteKeepsAttended(cfg: Config, m: Manager, e: Event)
    requires P.WaitersInRange(m.pool) && TasksInv(m) && Attended(m)
    requires e.Begin? || e.Attach?
    ensures Attended(Step(cfg, m, e))
  {
    hide *;
    if e.Begin? { BeginKeepsAttended(cfg, m, e); } else { AttachKeepsAttended(cfg, m, e); }
  }

  lemma BeginKeepsAttended(cfg: Config, m: Manager, e: Event)
    requires P.WaitersInRange(m.pool) && TasksInv(m) && Attended(m) && e.Begin?
    ensures Attended(Step(cfg, m, e))
  {
    hide Start, AttachDriver, ExecutionEnds, Deadline, StopDone, HardCancel, DriveCommit, CancelRequest,
      CancelCommit, AbandonCancel, CloseTaken, Detach, MarkDelivered, BeginReset, FinishReset, BeginClose,
      IdFree, SweepDone, P.Step, P.WaitersInRange;
  }

  lemma AttachKeepsAttended(cfg: Config, m: Manager, e: Event)
    requires P.WaitersInRange(m.pool) && TasksInv(m) && Attended(m) && e.Attach?
    ensures Attended(Step(cfg, m, e))
  {
    hide Start, DriveBegin, ExecutionEnds, Deadline, StopDone, HardCancel, DriveCommit, CancelRequest,
      CancelCommit, AbandonCancel, CloseTaken, Detach, MarkDelivered, BeginReset, FinishReset, BeginClose,
      IdFree, SweepDone, P.Step, P.WaitersInRange;
  }

  lemma GentleDeadlineKeepsAttended(cfg: Config, m: Manager, e: Event)
    requires P.WaitersInRange(m.pool) && TasksInv(m) && Attended(m) && e.DeadlinePasses?
    ensures Attended(Step(cfg, m, e))
  {
    hide Start, DriveBegin, AttachDriver, ExecutionEnds, StopDone, HardCancel, DriveCommit, CancelRequest,
      CancelCommit, AbandonCancel, CloseTaken, Detach, MarkDelivered, BeginReset, FinishReset, BeginClose,
      IdFree, SweepDone, P.Step, P.WaitersInRange;
  }

  lemma GentleMoveKeepsAttended(cfg: Config, m: Manager, e: Event)
    requires P.WaitersInRange(m.pool) && TasksInv(m) && Attended(m) && Gentle(m, e)
    requires e.Ends? || e.Stopped? || e.CancelDrive?
    ensures Attended(Step(cfg, m, e))
  {
    hide Start, DriveBegin, AttachDriver, Deadline, DriveCommit, CancelRequest, CancelCommit, AbandonCancel,
      CloseTaken, Detach, MarkDelivered, BeginReset, FinishReset, BeginClose, IdFree, SweepDone, P.Step,
      P.WaitersInRange, TasksInv, Attended;
    if e.id in m.drives {
      var d := Step(cfg, m, e).drives[e.id];
      if d == m.drives[e.id] { assert Step(cfg, m, e).drives == m.drives; }
      AttendedMove(m, e.id, d);
    }
  }

  /** A coroutine moves on; if it ends uncommitted, a caller of `cancel` is at work. */
  lemma AttendedMove(m: Manager, id: Id, d: Drive)
    requires Attended(m) && id in m.drives && (d.Ended? ==> m.drives[id].Ended? || id in m.cancellers)
    ensures Attended(m.(drives := m.drives[id := d]))
  {
    hide ActiveIds;
  }

  lemma GentleCommitKeepsAttended(cfg: Config, m: Manager, e: Event)
    requires P.WaitersInRange(m.pool) && TasksInv(m) && Attended(m) && Gentle(m, e)
    requires e.Finish? || e.CommitCancel? || e.Cancel? || e.DetachTask?
    ensures Attended(Step(cfg, m, e))
  {
    hide *;
    if e.Finish? || e.CommitCancel? { FinishKeepsAttended(cfg, m, e); } else { CancelKeepsAttended(cfg, m, e); }
  }

  lemma FinishKeepsAttended(cfg: Config, m: Manager, e: Event)
    requires P.WaitersInRange(m.pool) && TasksInv(m) && Attended(m) && (e.Finish? || e.CommitCancel?)
    ensures Attended(Step(cfg, m, e))
  {
    hide Start, DriveBegin, AttachDriver, ExecutionEnds, Deadline, StopDone, HardCancel, CancelRequest,
      AbandonCancel, CloseTaken, Detach, MarkDelivered, BeginReset, FinishReset, BeginClose, IdFree, SweepDone,
      P.Step, P.WaitersInRange, FinalStatus, Outcome;
  }

  lemma CancelKeepsAttended(cfg: Config, m: Manager, e: Event)
    requires P.WaitersInRange(m.pool) && TasksInv(m) && Attended(m) && (e.Cancel? || e.DetachTask?)
    ensures Attended(Step(cfg, m, e))
  {
    hide Start, DriveBegin, AttachDriver, ExecutionEnds, Deadline, StopDone, HardCancel, DriveCommit,
      CancelCommit, AbandonCancel, CloseTaken, MarkDelivered, BeginReset, FinishReset, BeginClose, IdFree,
      SweepDone, P.Step, P.WaitersInRange;
  }

  /** In such runs reset can only lose the slot of a task that a caller of `cancel` is still stopping. */
  lemma GentleResetLosesNothing(m: Manager)
    requires RecordsInv(m) && LeaseInv(m) && Attended(m) && m.clearing && SweepDone(m)
    ensures ActiveIds(m.records) <= m.cancellers.Keys
    ensures m.cancellers == map[] ==> FinishReset(m).dropped == m.dropped
  {
    hide LeaseInv, ForegroundInv;
    forall id | id in ActiveIds(m.records) ensures id in m.cancellers {
      assert id in m.sweep;
    }
    ResetLosesSlotsIff(m);
  }

  lemma OnlyClearingDrops(cfg: Config, m: Manager, e: Event)
    requires P.WaitersInRange(m.pool) && !e.ResetClears?
    ensures Step(cfg, m, e).dropped == m.dropped
  {
    hide P.Step, P.CloseLease, P.TryAcquire, P.WaitersInRange, Evict, RecordLeases, ActiveIds, FinalStatus, Outcome;
    hide StartCheck, IdFree, SweepDone;
    if e.Finish? || e.CommitCancel? {
    } else if e.StartTask? || e.Deliver? {
    }
  }

  /** The step clears the table while a record in it is still active. */
  ghost predicate ClearsActive(m: Manager, e: Event) {
    e.ResetClears? && m.clearing && SweepDone(m) && ActiveIds(m.records) != {}
  }

  lemma StepDropsIff(cfg: Config, m: Manager, e: Event)
    requires P.WaitersInRange(m.pool) && RecordsInv(m) && LeaseInv(m)
    ensures m.dropped <= Step(cfg, m, e).dropped
    ensures Step(cfg, m, e).dropped == m.dropped <==> !ClearsActive(m, e)
  {
    hide RecordsInv, LeaseInv, P.WaitersInRange, SweepDone, ActiveIds, RecordLeases;
    if !e.ResetClears? {
      OnlyClearingDrops(cfg, m, e);
      hide Step;
    } else if m.clearing && SweepDone(m) {
      ResetLosesSlotsIff(m);
    }
  }

  /** A run loses a slot if and only if one of its steps clears the table while a record is still active. */
  lemma {:induction false} RunLosesNothingIff(cfg: Config, limit: nat, es: seq<Event>)
    ensures
      Run(cfg, limit, es).dropped == {}
      <==> forall k :: 0 <= k < |es| ==> !ClearsActive(Run(cfg, limit, es[..k]), es[k])
    decreases |es|
  {
    hide RecordsInv, LeaseInv, Step, ClearsActive, P.WaitersInRange;
    if es != [] {
      var before, e := es[..|es| - 1], es[|es| - 1];
      RunLosesNothingIff(cfg, limit, before);
      StepDropsIff(cfg, Run(cfg, limit, before), e);
      assert forall k :: 0 <= k < |before| ==> es[k] == before[k] && es[..k] == before[..k];
      assert forall k :: 0 <= k < |es| ==> k < |before| || (k == |before| && es[..k] == before && es[k] == e);
    } else {
      NothingAttended(P.Init(limit));
    }
  }

  /** Every step of the run is gentle, and reset clears the table only when no caller of `cancel` is at work. */
  ghost predicate GentleRun(cfg: Config, limit: nat, es: seq<Event>)
    decreases |es|
  {
    es == [] ||
      var before, e := es[..|es| - 1], es[|es| - 1];
      var m := Run(cfg, limit, before);
      GentleRun(cfg, limit, before) && Gentle(m, e) && (e.ResetClears? ==> m.cancellers == map[])
  }

  /** Such a run loses no slot, however often it resets. */
  lemma {:induction false} GentleRunsLoseNothing(cfg: Config, limit: nat, es: seq<Event>)
    requires GentleRun(cfg, limit, es)
    ensures Attended(Run(cfg, limit, es)) && Run(cfg, limit, es).dropped == {}
    decreases |es|
  {
    hide RecordsInv, LeaseInv, Step, Attended, Gentle, P.WaitersInRange;
    if es == [] {
      NothingAttended(P.Init(limit));
    } else {
      var before, e := es[..|es| - 1], es[|es| - 1];
      var m := Run(cfg, limit, before);
      GentleRunsLoseNothing(cfg, limit, before);
      GentleNext(cfg, m, e);
    }
  }

  lemma NothingAttended(pool: P.Pool)
    ensures Attended(Init(pool)) && Init(pool).dropped == {}
  {
  }

  lemma GentleNext(cfg: Config, m: Manager, e: Event)
    requires P.WaitersInRange(m.pool) && RecordsInv(m) && LeaseInv(m) && Attended(m) && Gentle(m, e)
    requires e.ResetClears? ==> m.cancellers == map[]
    ensures Attended(Step(cfg, m, e)) && Step(cfg, m, e).dropped == m.dropped
  {
    assert TasksInv(m);
    hide RecordsInv, LeaseInv, Attended, Gentle, TasksInv, P.WaitersInRange;
    GentleStepKeepsAttended(cfg, m, e);
    if !e.ResetClears? {
      OnlyClearingDrops(cfg, m, e);
    } else {
      hide SweepDone;
      if m.clearing && SweepDone(m) { GentleResetLosesNothing(m); }
    }
  }
}
