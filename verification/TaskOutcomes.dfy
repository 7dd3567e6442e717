/**
  Which final status a task gets, and from whom (`_drive` and `_commit_terminal` of
  `src/mewcode/subagents/tasks.py`).
*/
module TaskOutcomes {
  import opened Wrappers
  import opened TaskManager
  import P = CapacityPool

  // --- One commit ----------------------------------------------------------------

  /** A reported status that is not final counts as a failure. */
  function Settled(s: Status): Status {
    match s
    case Completed => Completed
    case Cancelled => Cancelled
    case _ => Failed
  }

  /**
    The end of a driving coroutine. What the driver reports counts before what the execution ended with.
    A timeout makes it a failure, unless the driver reports nothing and stopping the execution was itself
    interrupted; a requested cancellation makes it cancelled, unless it completed.
  */
  lemma DriveEndsWith(m: Manager, id: Id, reported: Option<Status>)
    requires RecordsInv(m) && id in m.drives && m.drives[id].Closing? && id in m.records && m.records[id].Active()
    ensures
      var r, d, n := m.records[id], m.drives[id], DriveCommit(m, id, reported);
      var last := if reported.Some? then reported.value else d.outcome;
      && id in n.records && n.drives[id].Ended?
      && (d.timedOut && reported.Some? ==> n.records[id].status.Failed?)
      && (d.timedOut && reported.None? ==> n.records[id].status == Settled(d.outcome))
      && (!d.timedOut && !r.cancelRequested ==> n.records[id].status == Settled(last))
      && (r.cancelRequested ==> n.records[id].status == if last.Completed? then Completed else Cancelled)
  {
    hide ForegroundInv;
  }

  /** A commit of `cancel` ends an active task as cancelled. */
  lemma CancelEndsWith(m: Manager, id: Id)
    requires RecordsInv(m) && id in m.cancellers && id in m.records && m.records[id].Active()
    ensures id in CancelCommit(m, id).records && CancelCommit(m, id).records[id].status.Cancelled?
  {
    hide ForegroundInv;
  }

  // --- Runs ------------------------------------------------------------------------

  /** In the run, the execution of the task ended with `s` or its driver reported `s`. */
  predicate Reported(es: seq<Event>, id: Id, s: Status) {
    Ends(id, s) in es || Finish(id, Some(s)) in es
  }

  /** Where the status of a record comes from. */
  predicate RecordSays(es: seq<Event>, id: Id, r: Record) {
    && (r.status.Completed? ==> Reported(es, id, Completed))
    && (r.status.Cancelled? ==> r.cancelRequested || Reported(es, id, Cancelled) || CancelDrive(id) in es)
    && (r.timeoutTriggered && r.status.Terminal()
        ==> r.status.Failed? || (r.status.Cancelled? && CancelDrive(id) in es))
  }

  /** What a coroutine in its `finally` block holds. */
  predicate DriveSays(es: seq<Event>, id: Id, d: Drive) {
    d.Closing? ==>
      && (d.outcome.Completed? ==> Ends(id, Completed) in es)
      && (d.timedOut ==> d.outcome.Failed? || (d.outcome.Cancelled? && CancelDrive(id) in es))
  }

  /** What it knows of its record. */
  predicate PairSays(es: seq<Event>, id: Id, r: Record, d: Drive) {
    && (d.Stopping? && !d.timedOut ==> r.cancelRequested)
    && (d.Closing? && d.outcome.Cancelled? ==>
          r.cancelRequested || Ends(id, Cancelled) in es || CancelDrive(id) in es)
    && (r.timeoutTriggered && r.Active() ==> d.Ended? || ((d.Stopping? || d.Closing?) && d.timedOut))
  }

  ghost predicate Says(es: seq<Event>, m: Manager) {
    && (forall id :: id in m.drives ==> DriveSays(es, id, m.drives[id]))
    && (forall id :: id in m.records ==> id in m.drives && RecordSays(es, id, m.records[id]))
    && (forall id :: id in m.records && id in m.drives ==> PairSays(es, id, m.records[id], m.drives[id]))
  }

  lemma SaysMore(es: seq<Event>, e: Event, m: Manager)
    requires Says(es, m)
    ensures Says(es + [e], m)
  {
  }

  /** Only the record and the coroutine of `id` change. */
  lemma SaysOne(es: seq<Event>, m: Manager, n: Manager, id: Id)
    requires Says(es, m) && id in n.drives
    requires n.drives == m.drives[id := n.drives[id]]
    requires forall i :: i in n.records && i != id ==> i in m.records && n.records[i] == m.records[i]
    requires DriveSays(es, id, n.drives[id])
    requires id in n.records ==> RecordSays(es, id, n.records[id]) && PairSays(es, id, n.records[id], n.drives[id])
    ensures Says(es, n)
  {
  }

  /** Records leave, or change in their notification only. */
  lemma SaysLess(es: seq<Event>, m: Manager, n: Manager)
    requires Says(es, m) && Idles(m, n)
    ensures Says(es, n)
  {
  }

  // --- Each event ----------------------------------------------------------------------

  /** An event that leaves records and coroutines alone, but for notifications and removals. */
  predicate Idle(e: Event) {
    e.Pool? || e.CloseLease? || e.Reset? || e.Close? || e.Abandon? || e.Deliver? || e.ResetClears?
  }

  lemma IdleSays(cfg: Config, m: Manager, es: seq<Event>, e: Event)
    requires P.WaitersInRange(m.pool) && Says(es, m) && Idle(e)
    ensures Says(es, Step(cfg, m, e))
  {
    hide *;
    if e.Deliver? { DeliverIdles(cfg, m, e); } else { RestIdles(cfg, m, e); }
    SaysLess(es, m, Step(cfg, m, e));
  }

  ghost predicate Idles(m: Manager, n: Manager) {
    && n.drives == m.drives
    && forall i :: i in n.records ==>
         i in m.records && n.records[i] == m.records[i].(notificationPending := n.records[i].notificationPending)
  }

  lemma DeliverIdles(cfg: Config, m: Manager, e: Event)
    requires P.WaitersInRange(m.pool) && e.Deliver?
    ensures Idles(m, Step(cfg, m, e))
  {
    hide P.WaitersInRange, P.Step, Start, DriveBegin, AttachDriver, ExecutionEnds, Deadline, StopDone, HardCancel,
      DriveCommit, CancelRequest, CancelCommit, AbandonCancel, CloseTaken, Detach, BeginReset, FinishReset, BeginClose,
      Evict;
    if e.id in m.records {
      var cleared := m.records[e.id].(notificationPending := false);
      EvictKeeps(cfg.retention, m.records[e.id := cleared], m.delivered + [e.id]);
    }
  }

  lemma RestIdles(cfg: Config, m: Manager, e: Event)
    requires P.WaitersInRange(m.pool) && Idle(e) && !e.Deliver?
    ensures Idles(m, Step(cfg, m, e))
  {
    hide Step, Idles, P.WaitersInRange, FinishReset;
    if e.Pool? || e.CloseLease? { PoolIdles(cfg, m, e); } else { TableIdles(cfg, m, e); }
    if e.ResetClears? { ClearIdles(m); } else { SameIdles(m, Step(cfg, m, e)); }
  }

  lemma SameIdles(m: Manager, n: Manager)
    requires n.records == m.records && n.drives == m.drives
    ensures Idles(m, n)
  {
  }

  lemma ClearIdles(m: Manager)
    ensures Idles(m, FinishReset(m))
  {
    hide SweepDone, RecordLeases;
  }

  lemma PoolIdles(cfg: Config, m: Manager, e: Event)
    requires P.WaitersInRange(m.pool) && (e.Pool? || e.CloseLease?)
    ensures Step(cfg, m, e).records == m.records && Step(cfg, m, e).drives == m.drives
  {
    hide P.WaitersInRange, P.Step, P.CloseLease, Start, DriveBegin, AttachDriver, ExecutionEnds, Deadline, StopDone;
    hide HardCancel, DriveCommit, CancelRequest, CancelCommit, AbandonCancel, Detach, MarkDelivered, Foreign, IdFree;
    hide BeginReset, FinishReset, BeginClose;
  }

  lemma TableIdles(cfg: Config, m: Manager, e: Event)
    requires P.WaitersInRange(m.pool) && (e.Reset? || e.Close? || e.Abandon? || e.ResetClears?)
    ensures e.ResetClears? ==> Step(cfg, m, e) == FinishReset(m)
    ensures !e.ResetClears? ==> Step(cfg, m, e).records == m.records && Step(cfg, m, e).drives == m.drives
  {
    hide P.WaitersInRange, P.Step, P.CloseLease, Start, DriveBegin, AttachDriver, ExecutionEnds, Deadline, StopDone;
    hide HardCancel, DriveCommit, CancelRequest, CancelCommit, CloseTaken, Detach, MarkDelivered, Foreign, IdFree;
    hide FinishReset, ActiveIds;
  }

  lemma StartSays(cfg: Config, m: Manager, es: seq<Event>, id: Id, placement: Placement)
    requires P.WaitersInRange(m.pool) && Says(es, m)
    ensures Says(es, Start(cfg, m, id, placement).0)
  {
    hide Says, P.TryAcquire, ActiveIds, TaskOwner;
    var n := Start(cfg, m, id, placement).0;
    if n != m { SaysOne(es, m, n, id); }
  }

  lemma BeginSays(m: Manager, es: seq<Event>, id: Id)
    requires RecordsInv(m) && Says(es, m)
    ensures Says(es, DriveBegin(m, id))
  {
    hide Says, RecordsInv;
    if id in m.drives && m.drives[id] == Created {
      PairOf(m, es, id);
      SaysOne(es, m, DriveBegin(m, id), id);
    }
  }

  lemma AttachSays(m: Manager, es: seq<Event>, id: Id)
    requires RecordsInv(m) && Says(es, m)
    ensures Says(es, AttachDriver(m, id))
  {
    hide Says, RecordsInv;
    if id in m.drives && m.drives[id] == Executing && id in m.records && !m.records[id].hasDriver {
      PairOf(m, es, id);
      assert m.drives == m.drives[id := m.drives[id]];
      SaysOne(es, m, AttachDriver(m, id), id);
    }
  }

  lemma DeadlineSays(m: Manager, es: seq<Event>, id: Id)
    requires RecordsInv(m) && Says(es, m)
    ensures Says(es, Deadline(m, id))
  {
    hide Says, RecordsInv;
    if id in m.drives && m.drives[id] == Executing {
      PairOf(m, es, id);
      SaysOne(es, m, Deadline(m, id), id);
    }
  }

  lemma PairOf(m: Manager, es: seq<Event>, id: Id)
    requires RecordsInv(m) && Says(es, m) && id in m.drives
    ensures DriveSays(es, id, m.drives[id])
    ensures id in m.records ==>
      && RecordSays(es, id, m.records[id]) && PairSays(es, id, m.records[id], m.drives[id])
      && FlagsOk(m.records[id]) && DriveOk(m.records[id], m.drives[id])
      && (id in m.cancellers ==> m.records[id].cancelRequested)
  {
    hide ForegroundInv;
  }

  lemma EndSays(m: Manager, es: seq<Event>, id: Id, outcome: Status)
    requires RecordsInv(m) && Says(es, m) && Ends(id, outcome) in es
    ensures Says(es, ExecutionEnds(m, id, outcome))
  {
    hide Says, RecordsInv;
    if id in m.drives && m.drives[id] == Executing {
      PairOf(m, es, id);
      SaysMoved(es, m, id, Closing(outcome, false));
    }
  }

  lemma StopSays(m: Manager, es: seq<Event>, id: Id)
    requires RecordsInv(m) && Says(es, m)
    ensures Says(es, StopDone(m, id))
  {
    hide Says, RecordsInv;
    if id in m.drives && m.drives[id].Stopping? {
      PairOf(m, es, id);
      var timedOut := m.drives[id].timedOut;
      SaysMoved(es, m, id, Closing(if timedOut then Failed else Cancelled, timedOut));
    }
  }

  lemma HardCancelSays(m: Manager, es: seq<Event>, id: Id)
    requires RecordsInv(m) && Says(es, m) && CancelDrive(id) in es
    ensures Says(es, HardCancel(m, id))
  {
    hide Says, RecordsInv;
    if id in m.drives {
      PairOf(m, es, id);
      var d := m.drives[id];
      SaysMoved(es, m, id, d);
      SaysMoved(es, m, id, Ended);
      if d.Executing? || d.Stopping? { SaysMoved(es, m, id, Closing(Cancelled, d.Stopping? && d.timedOut)); }
    }
  }

  /** Only the coroutine of `id` changes. */
  lemma SaysMoved(es: seq<Event>, m: Manager, id: Id, d: Drive)
    requires Says(es, m) && id in m.drives && DriveSays(es, id, d)
    requires id in m.records ==> PairSays(es, id, m.records[id], d)
    ensures Says(es, m.(drives := m.drives[id := d]))
  {
  }

  lemma FinishSays(m: Manager, es: seq<Event>, id: Id, reported: Option<Status>)
    requires RecordsInv(m) && Says(es, m) && Finish(id, reported) in es
    ensures Says(es, DriveCommit(m, id, reported))
  {
    hide Says, RecordsInv, FinalStatus, Outcome;
    if id in m.drives && m.drives[id].Closing? {
      PairOf(m, es, id);
      if id in m.records && m.records[id].Active() { DriveEndsWith(m, id, reported); }
      SaysOne(es, m, DriveCommit(m, id, reported), id);
    }
  }

  lemma RequestSays(m: Manager, es: seq<Event>, id: Id, sweep: bool)
    requires RecordsInv(m) && Says(es, m)
    ensures Says(es, CancelRequest(m, id, sweep).0)
  {
    hide Says, RecordsInv;
    KnownDrives(m);
    if id in m.records {
      PairOf(m, es, id);
      assert m.drives == m.drives[id := m.drives[id]];
      SaysOne(es, m, CancelRequest(m, id, sweep).0, id);
    }
  }

  lemma DetachSays(m: Manager, es: seq<Event>, id: Id)
    requires RecordsInv(m) && Says(es, m)
    ensures Says(es, Detach(m, id).0)
  {
    hide Says, RecordsInv;
    KnownDrives(m);
    if id in m.records {
      PairOf(m, es, id);
      assert m.drives == m.drives[id := m.drives[id]];
      SaysOne(es, m, Detach(m, id).0, id);
    }
  }

  lemma CancelCommitSays(m: Manager, es: seq<Event>, id: Id)
    requires RecordsInv(m) && Says(es, m)
    ensures Says(es, CancelCommit(m, id))
  {
    hide Says, RecordsInv, FinalStatus;
    KnownDrives(m);
    if id in m.records && id in m.cancellers {
      PairOf(m, es, id);
      if m.records[id].Active() { CancelEndsWith(m, id); }
      assert m.drives == m.drives[id := m.drives[id]];
      SaysOne(es, m, CancelCommit(m, id), id);
    } else {
      NothingToCommit(m, id);
      SaysLess(es, m, CancelCommit(m, id));
    }
  }

  lemma NothingToCommit(m: Manager, id: Id)
    requires id !in m.records || id !in m.cancellers
    ensures Idles(m, CancelCommit(m, id))
  {
  }

  lemma KnownDrives(m: Manager)
    requires RecordsInv(m)
    ensures m.records.Keys <= m.drives.Keys && m.cancellers.Keys <= m.drives.Keys
  {
    hide ForegroundInv;
  }

  lemma StepSays(cfg: Config, m: Manager, es: seq<Event>, e: Event)
    requires P.WaitersInRange(m.pool) && RecordsInv(m) && Says(es, m)
    ensures Says(es + [e], Step(cfg, m, e))
  {
    hide Says, RecordsInv, P.WaitersInRange, IdFree, Start, DriveBegin, AttachDriver, ExecutionEnds, Deadline, StopDone;
    hide HardCancel, DriveCommit, CancelRequest, CancelCommit, Detach;
    SaysMore(es, e, m);
    var more := es + [e];
    assert e in more;
    match e
    case StartTask(id, placement) => StartSays(cfg, m, more, id, placement);
    case Begin(id) => BeginSays(m, more, id);
    case Attach(id) => AttachSays(m, more, id);
    case DeadlinePasses(id) => DeadlineSays(m, more, id);
    case Ends(id, outcome) => EndSays(m, more, id, outcome);
    case Stopped(id) => StopSays(m, more, id);
    case CancelDrive(id) => HardCancelSays(m, more, id);
    case Finish(id, reported) => FinishSays(m, more, id, reported);
    case Cancel(id, sweep) => RequestSays(m, more, id, sweep);
    case CommitCancel(id) => CancelCommitSays(m, more, id);
    case DetachTask(id) => DetachSays(m, more, id);
    case _ => IdleSays(cfg, m, more, e);
  }

  lemma {:induction false} RunSays(cfg: Config, limit: nat, es: seq<Event>)
    ensures Says(es, Run(cfg, limit, es))
    decreases |es|
  {
    if es == [] {
      hide P.WaitersInRange, RecordsInv, LeaseInv;
      assert Run(cfg, limit, es).records == map[] && Run(cfg, limit, es).drives == map[];
    } else {
      hide Says, Step, RecordsInv, LeaseInv, P.WaitersInRange;
      var before := es[..|es| - 1];
      RunSays(cfg, limit, before);
      StepSays(cfg, Run(cfg, limit, before), before, es[|es| - 1]);
      assert es == before + [es[|es| - 1]];
    }
  }

  /**
    Over every run: a task is Completed only when its execution or its driver reported completion; Cancelled
    only when its cancellation was requested, one of them reported it, or its coroutine was cancelled; and a
    task that timed out never completes: it fails, unless its coroutine was cancelled as well.
  */
  lemma StatusHasASource(cfg: Config, limit: nat, es: seq<Event>, id: Id)
    requires id in Run(cfg, limit, es).records
    ensures
      var r := Run(cfg, limit, es).records[id];
      && (r.status.Completed? ==> Reported(es, id, Completed))
      && (r.status.Cancelled? ==> r.cancelRequested || Reported(es, id, Cancelled) || CancelDrive(id) in es)
      && (r.timeoutTriggered ==> !r.status.Completed?)
      && (r.timeoutTriggered && r.status.Terminal() && CancelDrive(id) !in es ==> r.status.Failed?)
  {
    RunSays(cfg, limit, es);
    hide Run;
  }

  /** A call of `cancel` for the task in the run. */
  predicate Asked(es: seq<Event>, id: Id) {
    Cancel(id, true) in es || Cancel(id, false) in es
  }

  /** So a task whose execution raised, and that nobody cancelled or reported on, ends Failed. */
  lemma RaisedTaskFails(cfg: Config, limit: nat, es: seq<Event>, id: Id)
    requires id in Run(cfg, limit, es).records && Run(cfg, limit, es).records[id].status.Terminal()
    requires !Reported(es, id, Completed) && !Reported(es, id, Cancelled) && CancelDrive(id) !in es && !Asked(es, id)
    ensures Run(cfg, limit, es).records[id].status.Failed?
  {
    StatusHasASource(cfg, limit, es, id);
    RequestHasASource(cfg, limit, es, id);
    hide Run;
  }

  lemma {:induction false} RequestHasASource(cfg: Config, limit: nat, es: seq<Event>, id: Id)
    ensures id in Run(cfg, limit, es).records && Run(cfg, limit, es).records[id].cancelRequested ==> Asked(es, id)
    decreases |es|
  {
    hide RecordsInv, LeaseInv, Step, P.WaitersInRange;
    if es != [] {
      var before, e := es[..|es| - 1], es[|es| - 1];
      RequestHasASource(cfg, limit, before, id);
      RequestedBy(cfg, Run(cfg, limit, before), e, id);
      assert es == before + [e];
    } else {
      assert Run(cfg, limit, es).records == map[];
    }
  }

  lemma RequestedBy(cfg: Config, m: Manager, e: Event, id: Id)
    requires P.WaitersInRange(m.pool) && RecordsInv(m)
    ensures id in Step(cfg, m, e).records && Step(cfg, m, e).records[id].cancelRequested ==>
      (id in m.records && m.records[id].cancelRequested) || Asked([e], id)
  {
    hide *;
    if Idle(e) {
      if e.Deliver? { DeliverIdles(cfg, m, e); } else { RestIdles(cfg, m, e); }
      IdlesKeepFlags(m, Step(cfg, m, e), id);
    } else {
      BusyFlags(cfg, m, e, id);
    }
  }

  lemma IdlesKeepFlags(m: Manager, n: Manager, id: Id)
    requires Idles(m, n)
    ensures id in n.records ==> id in m.records && n.records[id].cancelRequested == m.records[id].cancelRequested
  {
  }

  lemma BusyFlags(cfg: Config, m: Manager, e: Event, id: Id)
    requires P.WaitersInRange(m.pool) && !Idle(e)
    ensures id in Step(cfg, m, e).records && Step(cfg, m, e).records[id].cancelRequested ==>
      (id in m.records && m.records[id].cancelRequested) || Asked([e], id)
  {
    hide *;
    if e.StartTask? || e.Finish? || e.CommitCancel? {
      CommitFlags(cfg, m, e, id);
    } else {
      MoveFlags(cfg, m, e, id);
    }
  }

  lemma CommitFlags(cfg: Config, m: Manager, e: Event, id: Id)
    requires P.WaitersInRange(m.pool) && (e.StartTask? || e.Finish? || e.CommitCancel?)
    ensures id in Step(cfg, m, e).records && Step(cfg, m, e).records[id].cancelRequested ==>
      id in m.records && m.records[id].cancelRequested
  {
    hide P.WaitersInRange, P.Step, P.TryAcquire, IdFree, MarkDelivered, FinalStatus, Outcome, StartCheck, TaskOwner;
    hide DriveBegin, AttachDriver, ExecutionEnds, Deadline, StopDone, HardCancel, CancelRequest, AbandonCancel, Detach;
    hide CloseTaken, BeginReset, FinishReset, BeginClose;
  }

  lemma MoveFlags(cfg: Config, m: Manager, e: Event, id: Id)
    requires P.WaitersInRange(m.pool) && !Idle(e) && !e.StartTask? && !e.Finish? && !e.CommitCancel?
    ensures id in Step(cfg, m, e).records && Step(cfg, m, e).records[id].cancelRequested ==>
      (id in m.records && m.records[id].cancelRequested) || Asked([e], id)
  {
    hide Step, Asked, P.WaitersInRange;
    if e.Begin? || e.Attach? || e.DeadlinePasses? {
      WriteFlags(cfg, m, e, id);
    } else if e.Ends? || e.Stopped? || e.CancelDrive? {
      DriveFlags(cfg, m, e);
    } else {
      RequestFlags(cfg, m, e, id);
    }
  }

  lemma WriteFlags(cfg: Config, m: Manager, e: Event, id: Id)
    requires P.WaitersInRange(m.pool) && (e.Begin? || e.Attach? || e.DeadlinePasses?)
    ensures id in Step(cfg, m, e).records && Step(cfg, m, e).records[id].cancelRequested ==>
      id in m.records && m.records[id].cancelRequested
  {
    hide P.WaitersInRange, P.Step, Start, IdFree, MarkDelivered, DriveCommit, CancelCommit, AbandonCancel, CloseTaken;
    hide BeginReset, FinishReset, BeginClose, ExecutionEnds, StopDone, HardCancel, CancelRequest, Detach;
    hide DriveBegin, AttachDriver, Deadline;
    match e
    case Begin(i) => BeginFlag(m, i, id);
    case Attach(i) => AttachFlag(m, i, id);
    case DeadlinePasses(i) => DeadlineFlag(m, i, id);
  }

  lemma BeginFlag(m: Manager, i: Id, id: Id)
    ensures id in DriveBegin(m, i).records && DriveBegin(m, i).records[id].cancelRequested ==>
      id in m.records && m.records[id].cancelRequested
  {
  }

  lemma AttachFlag(m: Manager, i: Id, id: Id)
    ensures id in AttachDriver(m, i).records && AttachDriver(m, i).records[id].cancelRequested ==>
      id in m.records && m.records[id].cancelRequested
  {
  }

  lemma DeadlineFlag(m: Manager, i: Id, id: Id)
    ensures id in Deadline(m, i).records && Deadline(m, i).records[id].cancelRequested ==>
      id in m.records && m.records[id].cancelRequested
  {
  }

  lemma DriveFlags(cfg: Config, m: Manager, e: Event)
    requires P.WaitersInRange(m.pool) && (e.Ends? || e.Stopped? || e.CancelDrive?)
    ensures Step(cfg, m, e).records == m.records
  {
    hide P.WaitersInRange, P.Step, Start, IdFree, MarkDelivered, DriveCommit, CancelCommit, AbandonCancel, CloseTaken;
    hide BeginReset, FinishReset, BeginClose, DriveBegin, AttachDriver, Deadline, CancelRequest, Detach;
  }

  lemma RequestFlags(cfg: Config, m: Manager, e: Event, id: Id)
    requires P.WaitersInRange(m.pool) && (e.Cancel? || e.DetachTask?)
    ensures id in Step(cfg, m, e).records && Step(cfg, m, e).records[id].cancelRequested ==>
      (id in m.records && m.records[id].cancelRequested) || Asked([e], id)
  {
    hide P.WaitersInRange, P.Step, Start, IdFree, MarkDelivered, DriveCommit, CancelCommit, AbandonCancel, CloseTaken;
    hide BeginReset, FinishReset, BeginClose, DriveBegin, AttachDriver, Deadline, ExecutionEnds, StopDone, HardCancel;
  }
}
