/**
  The loops of `_commit_files` and `_recover_transaction` over a disk they change in place.
  The trace lists the file operations performed, so that a crash is a prefix of it.
*/
module MemoryFiles {
  import opened Wrappers
  import opened MemoryTransaction

  class MemoryDisk {
    var files: map<Path, Bytes>
    var journal: Option<Journal>
    var draft: Option<Journal>
    var writeEnabled: bool
    ghost var trace: seq<Op>

    function View(): Disk
      reads this
    {
      Disk(files, journal, draft)
    }

    /** The operations performed since `before` were `ops`. */
    twostate predicate Performed(ops: seq<Op>)
      reads this
    {
      trace == old(trace) + ops && View() == Run(old(View()), ops) && writeEnabled == old(writeEnabled)
    }

    method Do(op: Op)
      modifies this
      ensures View() == Apply(old(View()), op) && trace == old(trace) + [op] && writeEnabled == old(writeEnabled)
    {
      var d := Apply(View(), op);
      files, journal, draft := d.files, d.journal, d.draft;
      trace := trace + [op];
    }

    /** `_atomic_write` of the journal. */
    method WriteJournal(j: Journal)
      modifies this
      ensures Performed(SetJournal(j.committed, j.records))
    {
      JournalMark(View(), j.committed, j.records);
      Do(DraftJournal(j));
      Do(PublishJournal);
      assert [DraftJournal(j)] + [PublishJournal] == SetJournal(j.committed, j.records);
    }

    method CleanupRecords(records: seq<Record>)
      modifies this
      ensures Performed(Flatten(CleanGroups(records)))
    {
      ghost var start := View();
      var i := 0;
      while i < |records|
        invariant 0 <= i <= |records|
        invariant Performed(Flatten(CleanGroups(records)[..i]))
      {
        ghost var done := Flatten(CleanGroups(records)[..i]);
        var record := records[i];
        if record.checksum.Some? {
          Do(RemoveTemp(record.target, record.tx));
        }
        if record.existed {
          Do(RemoveBackup(record.target, record.tx));
        }
        Extend(start, done, CleanOps(record));
        FlattenSnoc(CleanGroups(records), i);
        i := i + 1;
      }
      assert CleanGroups(records)[..i] == CleanGroups(records);
    }

    /** The staging loop: a backup of each existing target, a temporary file for each new content. */
    method StageFiles(sha: Bytes -> nat, tx: nat, changes: seq<Change>) returns (records: seq<Record>)
      modifies this
      ensures Performed(Flatten(StageGroups(old(files), tx, changes)))
      ensures records == Records(sha, old(files), tx, changes)
    {
      ghost var start, stage := View(), StageGroups(files, tx, changes);
      records := [];
      var i := 0;
      while i < |changes|
        invariant 0 <= i <= |changes|
        invariant Performed(Flatten(stage[..i]))
        invariant forall t :: File(t) in files <==> File(t) in start.files
        invariant records == Records(sha, start.files, tx, changes)[..i]
      {
        hide Flatten, Run, StageGroups, Records;
        ghost var done := Flatten(stage[..i]);
        var target, payload := changes[i].target, changes[i].payload;
        var existed := File(target) in files;
        if existed {
          Do(CopyToBackup(target, tx));
        }
        if payload.Some? {
          Do(WriteTemp(target, tx, payload.value));
        }
        var checksum := if payload.Some? then Some(sha(payload.value)) else None;
        records := records + [Record(target, tx, existed, checksum)];
        StageMore(sha, start, tx, changes, i);
        Extend(start, done, StageOps(start.files, tx, changes[i]));
        i := i + 1;
      }
      assert stage[..i] == stage
          && Records(sha, start.files, tx, changes)[..i] == Records(sha, start.files, tx, changes);
    }

    /** The loop that renames or deletes the targets. */
    method SwitchFiles(records: seq<Record>)
      modifies this
      ensures Performed(Flatten(SwitchGroups(records)))
    {
      ghost var start, switch := View(), SwitchGroups(records);
      var i := 0;
      while i < |records|
        invariant 0 <= i <= |records|
        invariant Performed(Flatten(switch[..i]))
      {
        ghost var done := Flatten(switch[..i]);
        if records[i].checksum.None? {
          Do(RemoveFile(records[i].target));
        } else {
          Do(TempToFile(records[i].target, records[i].tx));
        }
        Extend(start, done, SwitchOps(records[i]));
        FlattenSnoc(switch, i);
        i := i + 1;
      }
      assert switch[..i] == switch;
    }

    method CommitFiles(sha: Bytes -> nat, tx: nat, changes: seq<Change>)
      modifies this
      ensures Performed(CommitOps(sha, old(View()), tx, changes))
    {
      hide Flatten, SetJournal, Records, StageGroups, SwitchGroups, CleanGroups, Run, Apply, CommitOps;
      ghost var start, before := View(), trace;
      var records := StageFiles(sha, tx, changes);
      ghost var ops := Flatten(StageGroups(start.files, tx, changes));
      WriteJournal(Journal(false, records));
      RunMore(start, before, ops, SetJournal(false, records));
      ops := ops + SetJournal(false, records);
      SwitchFiles(records);
      RunMore(start, before, ops, Flatten(SwitchGroups(records)));
      ops := ops + Flatten(SwitchGroups(records));
      WriteJournal(Journal(true, records));
      RunMore(start, before, ops, SetJournal(true, records));
      ops := ops + SetJournal(true, records);
      CleanupRecords(records);
      RunMore(start, before, ops, Flatten(CleanGroups(records)));
      ops := ops + Flatten(CleanGroups(records));
      Do(RemoveJournal);
      RunMore(start, before, ops, [RemoveJournal]);
      CommitOpsAre(sha, start, tx, changes);
    }

    /** One round of either loop of the recovery; false when it raises. */
    method ResolveRecord(sha: Bytes -> nat, committed: bool, record: Record) returns (ok: bool)
      modifies this
      ensures
        var ops := ResolveOps(sha, old(View()), committed, record);
        ok == ops.Some? && Performed(if ok then ops.value else [])
    {
      var file, temp, backup := File(record.target), Temp(record.target, record.tx), Backup(record.target, record.tx);
      ghost var start := View();
      if committed {
        if record.checksum.None? {
          Do(RemoveFile(record.target));
        } else if file in files && sha(files[file]) == record.checksum.value {
          return true;
        } else if temp in files && sha(files[temp]) == record.checksum.value {
          Do(TempToFile(record.target, record.tx));
        } else {
          return false;
        }
      } else if !record.existed {
        Do(RemoveFile(record.target));
      } else if backup in files {
        Do(BackupToFile(record.target, record.tx));
      } else {
        return false;
      }
      Extend(start, [], ResolveOps(sha, start, committed, record).value);
      assert [] + ResolveOps(sha, start, committed, record).value == ResolveOps(sha, start, committed, record).value;
      return true;
    }

    /** Either loop of the recovery; false when it raises. */
    method ResolveRecords(sha: Bytes -> nat, committed: bool, records: seq<Record>) returns (ok: bool)
      modifies this
      ensures Performed(ResolveAll(sha, old(View()), committed, records).0)
      ensures ok == ResolveAll(sha, old(View()), committed, records).1
    {
      ghost var start := View();
      ghost var ops: seq<Op> := [];
      ghost var whole := ResolveAll(sha, start, committed, records);
      var i := 0;
      assert records[0..] == records && [] + whole.0 == whole.0;
      while i < |records|
        invariant 0 <= i <= |records|
        invariant Performed(ops)
        invariant whole == ResolveFrom(sha, ops, View(), committed, records[i..])
      {
        ghost var before := View();
        ghost var next := ResolveOps(sha, before, committed, records[i]);
        ResolveNext(sha, ops, before, committed, records[i..]);
        assert records[i..][1..] == records[i + 1..];
        hide ResolveOps, ResolveAll, ResolveFrom;
        var resolved := ResolveRecord(sha, committed, records[i]);
        if !resolved {
          return false;
        }
        RunSplit(start, ops, next.value);
        ops := ops + next.value;
        i := i + 1;
      }
      assert ops + [] == ops;
      return true;
    }

    /** The result is false when the method raises. */
    method RecoverTransaction(sha: Bytes -> nat) returns (ok: bool)
      modifies this
      ensures Performed(RecoverOps(sha, old(View())).0) && ok == RecoverOps(sha, old(View())).1
    {
      hide Flatten, ResolveAll, Run, Apply, CleanGroups, RecoverOps;
      ghost var start, before := View(), trace;
      RecoverOpsAre(sha, start);
      if journal.None? {
        RunMore(start, before, [], []);
        return true;
      }
      var committed, records := journal.value.committed, journal.value.records;
      ok := ResolveRecords(sha, committed, records);
      if !ok {
        return;
      }
      ghost var ops := ResolveAll(sha, start, committed, records).0;
      CleanupRecords(records);
      RunMore(start, before, ops, Flatten(CleanGroups(records)));
      ops := ops + Flatten(CleanGroups(records));
      Do(RemoveJournal);
      RunMore(start, before, ops, [RemoveJournal]);
    }

    /** What `_commit_files` does before it raises: it recovers, and forbids further writes if that raises too. */
    method AbandonCommit(sha: Bytes -> nat)
      modifies this
      ensures trace == old(trace) + RecoverOps(sha, old(View())).0 && View() == Recover(sha, old(View())).0
      ensures writeEnabled <==> old(writeEnabled) && Recover(sha, old(View())).1
    {
      hide RecoverOps, Run;
      var ok := RecoverTransaction(sha);
      if !ok {
        writeEnabled := false;
      }
    }

    /**
      A commit that raised after `k` operations, perhaps inside a write: its targets are as before it up to
      the commit point and as the changes say from there on, and writing stays enabled.
    */
    method FailCommit(
        sha: Bytes -> nat, ghost d: Disk, ghost tx: nat, ghost changes: seq<Change>, ghost k: nat,
        ghost torn: Option<Bytes>)
      requires Distinct(changes) && FreshTx(d, tx) && d.journal.None? && k <= |CommitOps(sha, d, tx, changes)|
      requires View() == Crash(d, CommitOps(sha, d, tx, changes), k, torn)
      modifies this
      ensures journal.None? && writeEnabled == old(writeEnabled)
      ensures TargetFiles(files)
           == TargetFiles(if k < CommitPoint(sha, d, tx, changes) then d.files else Changed(d.files, changes))
    {
      hide Recover, RecoverOps, Crash, CommitOps, CommitPoint, Changed, Distinct, FreshTx, TargetFiles;
      CommitIsAtomic(sha, d, tx, changes, k, torn);
      AbandonCommit(sha);
    }
  }

  /** The rest of a recovery that has performed `done`. */
  ghost function ResolveFrom(
      sha: Bytes -> nat, done: seq<Op>, d: Disk, committed: bool, records: seq<Record>): (seq<Op>, bool) {
    var (ops, ok) := ResolveAll(sha, d, committed, records);
    (done + ops, ok)
  }

  lemma ResolveNext(sha: Bytes -> nat, done: seq<Op>, d: Disk, committed: bool, records: seq<Record>)
    requires records != []
    ensures
      ResolveFrom(sha, done, d, committed, records)
      == match ResolveOps(sha, d, committed, records[0])
         case None => (done, false)
         case Some(ops) => ResolveFrom(sha, done + ops, Run(d, ops), committed, records[1..])
  {
    hide ResolveOps;
    assert done + [] == done;
    var ops := ResolveOps(sha, d, committed, records[0]);
    if ops.Some? {
      var rest := ResolveAll(sha, Run(d, ops.value), committed, records[1..]).0;
      assert done + (ops.value + rest) == (done + ops.value) + rest;
    }
  }

  lemma FlattenSnoc(groups: seq<seq<Op>>, i: nat)
    requires i < |groups|
    ensures Flatten(groups[..i + 1]) == Flatten(groups[..i]) + groups[i]
  {
    if i > 0 {
      FlattenSnoc(groups[1..], i - 1);
      assert groups[1..][..i] == groups[..i + 1][1..] && groups[1..][..i - 1] == groups[..i][1..];
    }
  }

  lemma StageMore(sha: Bytes -> nat, d: Disk, tx: nat, changes: seq<Change>, i: nat)
    requires i < |changes|
    ensures
      var stage, records := StageGroups(d.files, tx, changes), Records(sha, d.files, tx, changes);
      && Flatten(stage[..i + 1]) == Flatten(stage[..i]) + StageOps(d.files, tx, changes[i])
      && records[..i + 1] == records[..i] + [RecordOf(sha, d.files, tx, changes[i])]
  {
    FlattenSnoc(StageGroups(d.files, tx, changes), i);
  }

  /** More operations after those done, on the disk and in the trace. */
  lemma RunMore(d: Disk, before: seq<Op>, done: seq<Op>, ops: seq<Op>)
    ensures Run(d, done + ops) == Run(Run(d, done), ops)
    ensures |ops| == 1 ==> Run(d, done + ops) == Apply(Run(d, done), ops[0])
    ensures (before + done) + ops == before + (done + ops)
  {
    RunSplit(d, done, ops);
  }

  lemma RecoverOpsAre(sha: Bytes -> nat, d: Disk)
    ensures d.journal.None? ==> RecoverOps(sha, d) == ([], true) && Run(d, []) == d
    ensures d.journal.Some? ==>
      var records := d.journal.value.records;
      var (ops, ok) := ResolveAll(sha, d, d.journal.value.committed, records);
      RecoverOps(sha, d) == if ok then (ops + Flatten(CleanGroups(records)) + [RemoveJournal], true) else (ops, false)
  {
  }

  lemma CommitOpsAre(sha: Bytes -> nat, d: Disk, tx: nat, changes: seq<Change>)
    ensures
      var records := Records(sha, d.files, tx, changes);
      CommitOps(sha, d, tx, changes)
      == Flatten(StageGroups(d.files, tx, changes)) + SetJournal(false, records)
         + Flatten(SwitchGroups(records)) + SetJournal(true, records) + Flatten(CleanGroups(records)) + [RemoveJournal]
  {
  }
}
