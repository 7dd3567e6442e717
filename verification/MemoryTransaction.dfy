/**
  The journaled multi-file commit of the two-scope memory store and its recovery
  (`src/mewcode/continuity/memory_store.py`, `_commit_files` and `_recover_transaction`).

  The disk is a map of files with the journal beside it. A commit or a recovery is the
  list of file operations it performs; the machine may stop after any of them.
*/
module MemoryTransaction {
  import opened Wrappers

  datatype Scope = Project | User

  /** A memory file: the index or one note of a scope. */
  datatype Target = Target(scope: Scope, relative: string)

  type Bytes = seq<bv8>

  /** The files beside a target carry the random id of their transaction in their names. */
  datatype Path = File(target: Target) | Temp(target: Target, tx: nat) | Backup(target: Target, tx: nat)

  /** One target of the journal; `checksum` is None for a deletion. */
  datatype Record = Record(target: Target, tx: nat, existed: bool, checksum: Option<nat>)

  datatype Journal = Journal(committed: bool, records: seq<Record>)

  /** `draft` is the temporary file of an atomic journal write. */
  datatype Disk = Disk(files: map<Path, Bytes>, journal: Option<Journal>, draft: Option<Journal>)

  datatype Op =
    | CopyToBackup(target: Target, tx: nat)
    | WriteTemp(target: Target, tx: nat, data: Bytes)
    | TempToFile(target: Target, tx: nat)
    | BackupToFile(target: Target, tx: nat)
    | RemoveFile(target: Target)
    | RemoveTemp(target: Target, tx: nat)
    | RemoveBackup(target: Target, tx: nat)
    | DraftJournal(journal: Journal)
    | PublishJournal
    | RemoveJournal

  function Move(files: map<Path, Bytes>, from: Path, to: Path): map<Path, Bytes> {
    if from in files then files[to := files[from]] - {from} else files
  }

  function Apply(d: Disk, op: Op): Disk {
    match op
    case CopyToBackup(t, tx) =>
      if File(t) in d.files then d.(files := d.files[Backup(t, tx) := d.files[File(t)]]) else d
    case WriteTemp(t, tx, data) => d.(files := d.files[Temp(t, tx) := data])
    case TempToFile(t, tx) => d.(files := Move(d.files, Temp(t, tx), File(t)))
    case BackupToFile(t, tx) => d.(files := Move(d.files, Backup(t, tx), File(t)))
    case RemoveFile(t) => d.(files := d.files - {File(t)})
    case RemoveTemp(t, tx) => d.(files := d.files - {Temp(t, tx)})
    case RemoveBackup(t, tx) => d.(files := d.files - {Backup(t, tx)})
    case DraftJournal(j) => d.(draft := Some(j))
    case PublishJournal => if d.draft.Some? then d.(journal := d.draft, draft := None) else d
    case RemoveJournal => d.(journal := None)
  }

  function Run(d: Disk, ops: seq<Op>): Disk
    decreases |ops|
  {
    if ops == [] then d else Run(Apply(d, ops[0]), ops[1..])
  }

  /** The machine stops inside `op`: a copy or a write may leave any bytes behind, the rest is atomic. */
  function Torn(d: Disk, op: Op, junk: Bytes): Disk {
    match op
    case CopyToBackup(t, tx) => d.(files := d.files[Backup(t, tx) := junk])
    case WriteTemp(t, tx, _) => d.(files := d.files[Temp(t, tx) := junk])
    case _ => d
  }

  // --- The commit ----------------------------------------------------------------

  /** A file to write, or to delete when `payload` is None. */
  datatype Change = Change(target: Target, payload: Option<Bytes>)

  ghost predicate Distinct(changes: seq<Change>) {
    forall i, j :: 0 <= i < j < |changes| ==> changes[i].target != changes[j].target
  }

  function RecordOf(sha: Bytes -> nat, files: map<Path, Bytes>, tx: nat, c: Change): Record {
    Record(c.target, tx, File(c.target) in files, if c.payload.Some? then Some(sha(c.payload.value)) else None)
  }

  function Records(sha: Bytes -> nat, files: map<Path, Bytes>, tx: nat, changes: seq<Change>): seq<Record> {
    seq(|changes|, i requires 0 <= i < |changes| => RecordOf(sha, files, tx, changes[i]))
  }

  function StageOps(files: map<Path, Bytes>, tx: nat, c: Change): seq<Op> {
    (if File(c.target) in files then [CopyToBackup(c.target, tx)] else [])
    + (if c.payload.Some? then [WriteTemp(c.target, tx, c.payload.value)] else [])
  }

  function SwitchOps(r: Record): seq<Op> {
    if r.checksum.None? then [RemoveFile(r.target)] else [TempToFile(r.target, r.tx)]
  }

  /** `_cleanup_records` for one record. */
  function CleanOps(r: Record): seq<Op> {
    (if r.checksum.Some? then [RemoveTemp(r.target, r.tx)] else [])
    + (if r.existed then [RemoveBackup(r.target, r.tx)] else [])
  }

  function Flatten(groups: seq<seq<Op>>): seq<Op> {
    if groups == [] then [] else groups[0] + Flatten(groups[1..])
  }

  function StageGroups(files: map<Path, Bytes>, tx: nat, changes: seq<Change>): seq<seq<Op>> {
    seq(|changes|, i requires 0 <= i < |changes| => StageOps(files, tx, changes[i]))
  }

  function SwitchGroups(records: seq<Record>): seq<seq<Op>> {
    seq(|records|, i requires 0 <= i < |records| => SwitchOps(records[i]))
  }

  function CleanGroups(records: seq<Record>): seq<seq<Op>> {
    seq(|records|, i requires 0 <= i < |records| => CleanOps(records[i]))
  }

  function SetJournal(committed: bool, records: seq<Record>): seq<Op> {
    [DraftJournal(Journal(committed, records)), PublishJournal]
  }

  /** Everything `_commit_files` does when nothing fails. */
  function CommitOps(sha: Bytes -> nat, d: Disk, tx: nat, changes: seq<Change>): seq<Op> {
    var records := Records(sha, d.files, tx, changes);
    Flatten(StageGroups(d.files, tx, changes)) + SetJournal(false, records)
    + Flatten(SwitchGroups(records)) + SetJournal(true, records)
    + Flatten(CleanGroups(records)) + [RemoveJournal]
  }

  /** The commit takes effect with the operation before this place: the second journal is published. */
  function CommitPoint(sha: Bytes -> nat, d: Disk, tx: nat, changes: seq<Change>): nat {
    |Flatten(StageGroups(d.files, tx, changes))| + |Flatten(SwitchGroups(Records(sha, d.files, tx, changes)))| + 4
  }

  // --- Recovery --------------------------------------------------------------------

  /** What rolling one record back does, or None when it raises. */
  function UndoOps(d: Disk, r: Record): Option<seq<Op>> {
    if !r.existed then Some([RemoveFile(r.target)])
    else if Backup(r.target, r.tx) in d.files then Some([BackupToFile(r.target, r.tx)])
    else None
  }

  /** What rolling one record forward does, or None when it raises. */
  function RedoOps(sha: Bytes -> nat, d: Disk, r: Record): Option<seq<Op>> {
    var file, temp := File(r.target), Temp(r.target, r.tx);
    if r.checksum.None? then Some([RemoveFile(r.target)])
    else if file in d.files && sha(d.files[file]) == r.checksum.value then Some([])
    else if temp in d.files && sha(d.files[temp]) == r.checksum.value then Some([TempToFile(r.target, r.tx)])
    else None
  }

  function ResolveOps(sha: Bytes -> nat, d: Disk, committed: bool, r: Record): Option<seq<Op>> {
    if committed then RedoOps(sha, d, r) else UndoOps(d, r)
  }

  /**
    The operations on the records in order, each on the disk the earlier ones left, up to the first one that
    raises.
  */
  function ResolveAll(sha: Bytes -> nat, d: Disk, committed: bool, records: seq<Record>): (r: (seq<Op>, bool))
    decreases |records|
  {
    if records == [] then ([], true)
    else
      match ResolveOps(sha, d, committed, records[0])
      case None => ([], false)
      case Some(ops) =>
        var (rest, ok) := ResolveAll(sha, Run(d, ops), committed, records[1..]);
        (ops + rest, ok)
  }

  /** The operations of `_recover_transaction` on `d`, and whether it returns. */
  function RecoverOps(sha: Bytes -> nat, d: Disk): (r: (seq<Op>, bool)) {
    if d.journal.None? then ([], true)
    else
      var j := d.journal.value;
      var (ops, ok) := ResolveAll(sha, d, j.committed, j.records);
      if ok then (ops + Flatten(CleanGroups(j.records)) + [RemoveJournal], true) else (ops, false)
  }

  function Recover(sha: Bytes -> nat, d: Disk): (r: (Disk, bool)) {
    var (ops, ok) := RecoverOps(sha, d);
    (Run(d, ops), ok)
  }

  /** `_cleanup_orphans`: every temporary and backup file of both scopes goes. */
  function CleanOrphans(d: Disk): Disk {
    d.(files := map p | p in d.files && p.File? :: d.files[p])
  }

  // --- What one target sees -----------------------------------------------------------

  /** The three files of one target in one transaction. */
  datatype Cell = Cell(file: Option<Bytes>, temp: Option<Bytes>, backup: Option<Bytes>)

  function Get(files: map<Path, Bytes>, p: Path): Option<Bytes> {
    if p in files then Some(files[p]) else None
  }

  function CellOf(d: Disk, t: Target, tx: nat): Cell {
    Cell(Get(d.files, File(t)), Get(d.files, Temp(t, tx)), Get(d.files, Backup(t, tx)))
  }

  predicate Touches(op: Op, t: Target) {
    !op.DraftJournal? && !op.PublishJournal? && !op.RemoveJournal? && op.target == t
  }

  predicate OfTx(op: Op, tx: nat) {
    op.DraftJournal? || op.PublishJournal? || op.RemoveJournal? || op.RemoveFile? || op.tx == tx
  }

  function ApplyCell(c: Cell, op: Op): Cell {
    match op
    case CopyToBackup(_, _) => if c.file.Some? then c.(backup := c.file) else c
    case WriteTemp(_, _, data) => c.(temp := Some(data))
    case TempToFile(_, _) => if c.temp.Some? then c.(file := c.temp, temp := None) else c
    case BackupToFile(_, _) => if c.backup.Some? then c.(file := c.backup, backup := None) else c
    case RemoveFile(_) => c.(file := None)
    case RemoveTemp(_, _) => c.(temp := None)
    case RemoveBackup(_, _) => c.(backup := None)
    case _ => c
  }

  function RunCell(c: Cell, ops: seq<Op>): Cell
    decreases |ops|
  {
    if ops == [] then c else RunCell(ApplyCell(c, ops[0]), ops[1..])
  }

  /** The operations on target `t`, in order. */
  function Own(ops: seq<Op>, t: Target): seq<Op> {
    if ops == [] then []
    else if Touches(ops[0], t) then [ops[0]] + Own(ops[1..], t)
    else Own(ops[1..], t)
  }

  /** The disk evolves target by target. */
  lemma {:induction false} CellsOfRun(d: Disk, ops: seq<Op>, t: Target, tx: nat)
    requires forall i :: 0 <= i < |ops| ==> OfTx(ops[i], tx)
    ensures CellOf(Run(d, ops), t, tx) == RunCell(CellOf(d, t, tx), Own(ops, t))
    decreases |ops|
  {
    if ops != [] {
      var d1 := Apply(d, ops[0]);
      CellsOfRun(d1, ops[1..], t, tx);
      assert CellOf(d1, t, tx) == if Touches(ops[0], t) then ApplyCell(CellOf(d, t, tx), ops[0]) else CellOf(d, t, tx);
    }
  }

  /** Files of other transactions stay as they are. */
  lemma {:induction false} OtherTxUntouched(d: Disk, ops: seq<Op>, p: Path, tx: nat)
    requires forall i :: 0 <= i < |ops| ==> OfTx(ops[i], tx)
    requires !p.File? && p.tx != tx
    ensures Get(Run(d, ops).files, p) == Get(d.files, p)
    decreases |ops|
  {
    if ops != [] {
      OtherTxUntouched(Apply(d, ops[0]), ops[1..], p, tx);
    }
  }

  /** At most two more operations. */
  lemma Extend(d: Disk, done: seq<Op>, ops: seq<Op>)
    requires |ops| <= 2
    ensures
      Run(d, done + ops)
      == match |ops|
         case 0 => Run(d, done)
         case 1 => Apply(Run(d, done), ops[0])
         case _ => Apply(Apply(Run(d, done), ops[0]), ops[1])
  {
    RunSplit(d, done, ops);
    if |ops| == 2 {
      assert ops[1..] == [ops[1]];
      assert Run(Apply(Run(d, done), ops[0]), ops[1..]) == Apply(Apply(Run(d, done), ops[0]), ops[1]);
    }
  }

  lemma {:induction false} RunSplit(d: Disk, a: seq<Op>, b: seq<Op>)
    ensures Run(d, a + b) == Run(Run(d, a), b)
    decreases |a|
  {
    if a == [] {
      assert a + b == b;
    } else {
      assert (a + b)[1..] == a[1..] + b;
      RunSplit(Apply(d, a[0]), a[1..], b);
    }
  }

  lemma {:induction false} OwnSplit(a: seq<Op>, b: seq<Op>, t: Target)
    ensures Own(a + b, t) == Own(a, t) + Own(b, t)
  {
    if a == [] {
      assert a + b == b;
    } else {
      assert (a + b)[1..] == a[1..] + b;
      OwnSplit(a[1..], b, t);
    }
  }

  lemma {:induction false} OwnAll(ops: seq<Op>, t: Target)
    requires forall i :: 0 <= i < |ops| ==> Touches(ops[i], t)
    ensures Own(ops, t) == ops
  {
    if ops != [] { OwnAll(ops[1..], t); }
  }

  lemma {:induction false} OwnNone(ops: seq<Op>, t: Target)
    requires forall i :: 0 <= i < |ops| ==> !Touches(ops[i], t)
    ensures Own(ops, t) == []
  {
    if ops != [] { OwnNone(ops[1..], t); }
  }

  // --- Groups of operations, one group per target ---------------------------------------

  ghost predicate Grouped(groups: seq<seq<Op>>, targets: seq<Target>) {
    && |groups| == |targets|
    && (forall i, j :: 0 <= i < j < |targets| ==> targets[i] != targets[j])
    && (forall i, k :: 0 <= i < |groups| && 0 <= k < |groups[i]| ==> Touches(groups[i][k], targets[i]))
  }

  lemma GroupedTail(groups: seq<seq<Op>>, targets: seq<Target>)
    requires Grouped(groups, targets) && groups != []
    ensures Grouped(groups[1..], targets[1..])
  {
    forall i, k | 0 <= i < |groups[1..]| && 0 <= k < |groups[1..][i]|
        ensures Touches(groups[1..][i][k], targets[1..][i]) {
      assert groups[1..][i] == groups[i + 1];
    }
  }

  /** Stopping a grouped list anywhere stops each target's own list somewhere. */
  lemma {:induction false} OwnOfPrefix(groups: seq<seq<Op>>, targets: seq<Target>, k: nat, t: Target) returns (m: nat)
    requires Grouped(groups, targets) && k <= |Flatten(groups)|
    ensures t !in targets ==> Own(Flatten(groups)[..k], t) == []
    ensures forall p :: 0 <= p < |targets| && targets[p] == t ==>
      && m <= |groups[p]| && Own(Flatten(groups)[..k], t) == groups[p][..m]
      && (k == |Flatten(groups)| ==> m == |groups[p]|)
  {
    m := 0;
    if groups != [] {
      GroupedTail(groups, targets);
      var head, rest := groups[0], Flatten(groups[1..]);
      var a := if k < |head| then k else |head|;
      assert Flatten(groups)[..k] == head[..a] + rest[..k - a];
      OwnSplit(head[..a], rest[..k - a], t);
      var m' := OwnOfPrefix(groups[1..], targets[1..], k - a, t);
      if targets[0] == t {
        OwnAll(head[..a], t);
        assert t !in targets[1..];
        m := a;
        assert head[..a] + [] == head[..a];
      } else {
        OwnNone(head[..a], t);
        m := m';
        assert forall p :: 0 < p < |targets| ==> targets[p] == targets[1..][p - 1] && groups[p] == groups[1..][p - 1];
      }
    }
  }

  function Targets(changes: seq<Change>): seq<Target> {
    seq(|changes|, i requires 0 <= i < |changes| => changes[i].target)
  }

  lemma {:induction false} FlattenOps(groups: seq<seq<Op>>, op: Op)
    requires op in Flatten(groups)
    ensures exists i :: 0 <= i < |groups| && op in groups[i]
  {
    if op !in groups[0] {
      FlattenOps(groups[1..], op);
      var i :| 0 <= i < |groups[1..]| && op in groups[1..][i];
      assert op in groups[i + 1];
    }
  }

  // --- One target through a commit and a recovery ----------------------------------------

  lemma {:induction false} RunCellSplit(c: Cell, a: seq<Op>, b: seq<Op>)
    ensures RunCell(c, a + b) == RunCell(RunCell(c, a), b)
    decreases |a|
  {
    if a == [] {
      assert a + b == b;
    } else {
      assert (a + b)[1..] == a[1..] + b;
      RunCellSplit(ApplyCell(c, a[0]), a[1..], b);
    }
  }

  /** The cell after staging, and after the first `m` of its (at most one) switching operations. */
  lemma StagedCell(sha: Bytes -> nat, files: map<Path, Bytes>, tx: nat, c: Change, m: nat)
    requires m <= |SwitchOps(RecordOf(sha, files, tx, c))|
    ensures
      var before := Get(files, File(c.target));
      var staged := RunCell(Cell(before, None, None), StageOps(files, tx, c));
      && staged == Cell(before, c.payload, before)
      && RunCell(staged, SwitchOps(RecordOf(sha, files, tx, c))[..m])
         == if m == 0 then staged else Cell(c.payload, None, before)
  {
    var before := Get(files, File(c.target));
    var copy := if File(c.target) in files then [CopyToBackup(c.target, tx)] else [];
    var write := if c.payload.Some? then [WriteTemp(c.target, tx, c.payload.value)] else [];
    RunCellSplit(Cell(before, None, None), copy, write);
    assert RunCell(Cell(before, None, None), copy) == Cell(before, None, before);
  }

  /** Cleaning removes the two side files, from the front or from anywhere inside. */
  lemma CleanedCell(sha: Bytes -> nat, files: map<Path, Bytes>, tx: nat, c: Change, cell: Cell, m: nat)
    requires m <= |CleanOps(RecordOf(sha, files, tx, c))|
    requires c.payload.None? ==> cell.temp.None?
    requires File(c.target) !in files ==> cell.backup.None?
    ensures
      var ops := CleanOps(RecordOf(sha, files, tx, c));
      && RunCell(cell, ops) == Cell(cell.file, None, None)
      && RunCell(cell, ops[..m]).file == cell.file
      && (cell.temp.None? ==> RunCell(cell, ops[..m]).temp.None?)
      && (cell.backup.None? ==> RunCell(cell, ops[..m]).backup.None?)
  {
    var temp := if c.payload.Some? then [RemoveTemp(c.target, tx)] else [];
    var backup := if File(c.target) in files then [RemoveBackup(c.target, tx)] else [];
    RunCellSplit(cell, temp, backup);
    assert CleanOps(RecordOf(sha, files, tx, c)) == temp + backup;
    var ops := temp + backup;
    if m == |ops| {
      assert ops[..m] == ops;
    } else if m == 1 {
      assert ops[..1] == [ops[0]];
    } else {
      assert ops[..0] == [];
    }
  }

  // --- Journal and file operations ---------------------------------------------------------

  predicate OnFiles(op: Op) {
    !op.DraftJournal? && !op.PublishJournal? && !op.RemoveJournal?
  }

  lemma {:induction false} JournalKept(d: Disk, ops: seq<Op>)
    requires forall i :: 0 <= i < |ops| ==> OnFiles(ops[i])
    ensures Run(d, ops).journal == d.journal && Run(d, ops).draft == d.draft
    decreases |ops|
  {
    if ops != [] { JournalKept(Apply(d, ops[0]), ops[1..]); }
  }

  predicate Staging(op: Op) {
    op.CopyToBackup? || op.WriteTemp? || op.DraftJournal?
  }

  /** Until the first journal is published no target has changed and there is no journal. */
  lemma {:induction false} StagingKeepsTargets(d: Disk, ops: seq<Op>)
    requires forall i :: 0 <= i < |ops| ==> Staging(ops[i])
    ensures CleanOrphans(Run(d, ops)).files == CleanOrphans(d).files && Run(d, ops).journal == d.journal
    decreases |ops|
  {
    if ops != [] {
      StagingKeepsTargets(Apply(d, ops[0]), ops[1..]);
      assert CleanOrphans(Apply(d, ops[0])).files == CleanOrphans(d).files;
    }
  }

  ghost predicate AllTx(ops: seq<Op>, tx: nat) {
    forall i :: 0 <= i < |ops| ==> OfTx(ops[i], tx)
  }

  ghost predicate AllOnFiles(ops: seq<Op>) {
    forall i :: 0 <= i < |ops| ==> OnFiles(ops[i])
  }

  lemma {:induction false} FlattenAll(groups: seq<seq<Op>>, tx: nat)
    requires forall i :: 0 <= i < |groups| ==> AllTx(groups[i], tx) && AllOnFiles(groups[i])
    ensures AllTx(Flatten(groups), tx) && AllOnFiles(Flatten(groups))
  {
    if groups != [] { FlattenAll(groups[1..], tx); }
  }

  ghost predicate FreshTx(d: Disk, tx: nat) {
    forall p :: p in d.files && !p.File? ==> p.tx != tx
  }

  /** The groups of each phase are grouped by the targets of the changes. */
  lemma PhasesGrouped(sha: Bytes -> nat, files: map<Path, Bytes>, tx: nat, changes: seq<Change>)
    requires Distinct(changes)
    ensures
      var records := Records(sha, files, tx, changes);
      && Grouped(StageGroups(files, tx, changes), Targets(changes))
      && Grouped(SwitchGroups(records), Targets(changes))
      && Grouped(CleanGroups(records), Targets(changes))
      && AllTx(Flatten(StageGroups(files, tx, changes)), tx) && AllOnFiles(Flatten(StageGroups(files, tx, changes)))
      && AllTx(Flatten(SwitchGroups(records)), tx) && AllOnFiles(Flatten(SwitchGroups(records)))
      && AllTx(Flatten(CleanGroups(records)), tx) && AllOnFiles(Flatten(CleanGroups(records)))
  {
    hide *;
    StageGrouped(files, tx, changes);
    SwitchGrouped(sha, files, tx, changes);
    CleanGrouped(sha, files, tx, changes);
  }

  lemma StageGrouped(files: map<Path, Bytes>, tx: nat, changes: seq<Change>)
    requires Distinct(changes)
    ensures Grouped(StageGroups(files, tx, changes), Targets(changes))
    ensures var ops := Flatten(StageGroups(files, tx, changes)); AllTx(ops, tx) && AllOnFiles(ops)
  {
    FlattenAll(StageGroups(files, tx, changes), tx);
    hide Flatten;
  }

  lemma SwitchGrouped(sha: Bytes -> nat, files: map<Path, Bytes>, tx: nat, changes: seq<Change>)
    requires Distinct(changes)
    ensures
      var groups := SwitchGroups(Records(sha, files, tx, changes));
      Grouped(groups, Targets(changes)) && AllTx(Flatten(groups), tx) && AllOnFiles(Flatten(groups))
  {
    FlattenAll(SwitchGroups(Records(sha, files, tx, changes)), tx);
    hide Flatten;
  }

  lemma CleanGrouped(sha: Bytes -> nat, files: map<Path, Bytes>, tx: nat, changes: seq<Change>)
    requires Distinct(changes)
    ensures
      var groups := CleanGroups(Records(sha, files, tx, changes));
      Grouped(groups, Targets(changes)) && AllTx(Flatten(groups), tx) && AllOnFiles(Flatten(groups))
  {
    FlattenAll(CleanGroups(Records(sha, files, tx, changes)), tx);
    hide Flatten;
  }

  // --- The disk through a grouped list of operations ----------------------------------------

  /** The disks agree on every file that is not one of the targets or beside one in transaction `tx`. */
  ghost predicate Elsewhere(d: Disk, e: Disk, targets: seq<Target>, tx: nat) {
    forall p: Path :: p.target !in targets || (!p.File? && p.tx != tx) ==> Get(e.files, p) == Get(d.files, p)
  }

  predicate OnJournal(ops: seq<Op>) {
    forall i :: 0 <= i < |ops| ==> !OnFiles(ops[i])
  }

  /** Cell of target `t` after some prefix of its group. */
  ghost predicate Partway(d: Disk, e: Disk, t: Target, tx: nat, group: seq<Op>) {
    exists m :: 0 <= m <= |group| && CellOf(e, t, tx) == RunCell(CellOf(d, t, tx), group[..m])
  }

  lemma PrefixTx(ops: seq<Op>, k: nat, tail: seq<Op>, tx: nat)
    requires AllTx(ops, tx) && k <= |ops| && OnJournal(tail)
    ensures AllTx(ops[..k] + tail, tx)
  {
  }

  lemma PrefixCell(d: Disk, groups: seq<seq<Op>>, targets: seq<Target>, k: nat, tail: seq<Op>, tx: nat, t: Target)
    requires Grouped(groups, targets) && AllTx(Flatten(groups), tx) && OnJournal(tail) && k <= |Flatten(groups)|
    ensures
      var e := Run(d, Flatten(groups)[..k] + tail);
      && (t !in targets ==> CellOf(e, t, tx) == CellOf(d, t, tx))
      && (forall p :: 0 <= p < |targets| && targets[p] == t ==>
            && Partway(d, e, t, tx, groups[p])
            && (k == |Flatten(groups)| ==> CellOf(e, t, tx) == RunCell(CellOf(d, t, tx), groups[p])))
  {
    var ops := Flatten(groups)[..k] + tail;
    PrefixTx(Flatten(groups), k, tail, tx);
    CellsOfRun(d, ops, t, tx);
    OwnSplit(Flatten(groups)[..k], tail, t);
    OwnNone(tail, t);
    var own := Own(Flatten(groups)[..k], t);
    assert own + [] == own;
    var m := OwnOfPrefix(groups, targets, k, t);
    forall p | 0 <= p < |targets| && targets[p] == t
      ensures Partway(d, Run(d, ops), t, tx, groups[p])
      ensures k == |Flatten(groups)| ==> CellOf(Run(d, ops), t, tx) == RunCell(CellOf(d, t, tx), groups[p])
    {
      assert CellOf(Run(d, ops), t, tx) == RunCell(CellOf(d, t, tx), groups[p][..m]);
      assert groups[p][..|groups[p]|] == groups[p];
    }
  }

  lemma PrefixRun(d: Disk, groups: seq<seq<Op>>, targets: seq<Target>, k: nat, tail: seq<Op>, tx: nat)
    requires Grouped(groups, targets) && AllTx(Flatten(groups), tx) && OnJournal(tail) && k <= |Flatten(groups)|
    ensures
      var e := Run(d, Flatten(groups)[..k] + tail);
      && Elsewhere(d, e, targets, tx)
      && (forall p :: 0 <= p < |targets| ==>
            && Partway(d, e, targets[p], tx, groups[p])
            && (k == |Flatten(groups)| ==> CellOf(e, targets[p], tx) == RunCell(CellOf(d, targets[p], tx), groups[p])))
  {
    var ops := Flatten(groups)[..k] + tail;
    var e := Run(d, ops);
    forall p: Path | p.target !in targets || (!p.File? && p.tx != tx) ensures Get(e.files, p) == Get(d.files, p) {
      if p.target !in targets {
        PrefixCell(d, groups, targets, k, tail, tx, p.target);
      }
      if !p.File? && p.tx != tx {
        PrefixTx(Flatten(groups), k, tail, tx);
        OtherTxUntouched(d, ops, p, tx);
      }
    }
    forall p | 0 <= p < |targets|
      ensures Partway(d, e, targets[p], tx, groups[p])
      ensures k == |Flatten(groups)| ==> CellOf(e, targets[p], tx) == RunCell(CellOf(d, targets[p], tx), groups[p])
    {
      PrefixCell(d, groups, targets, k, tail, tx, targets[p]);
    }
  }

  /** Two disks with the same cells for the targets and the same files elsewhere hold the same files. */
  lemma SameFiles(d: Disk, e: Disk, targets: seq<Target>, tx: nat)
    requires Elsewhere(d, e, targets, tx)
    requires forall t :: t in targets ==> CellOf(e, t, tx) == CellOf(d, t, tx)
    ensures e.files == d.files
  {
    forall p: Path ensures Get(e.files, p) == Get(d.files, p) {
      if p.target in targets && (p.File? || p.tx == tx) {
        assert CellOf(e, p.target, tx) == CellOf(d, p.target, tx);
      }
    }
    assert forall p :: p in e.files <==> Get(e.files, p).Some?;
    assert forall p :: p in d.files <==> Get(d.files, p).Some?;
    assert forall p :: p in d.files ==> Get(d.files, p) == Some(d.files[p]) && Get(e.files, p) == Some(e.files[p]);
  }

  // --- The phases of a commit -----------------------------------------------------------------

  lemma StagedDisk(sha: Bytes -> nat, d: Disk, tx: nat, changes: seq<Change>)
    requires Distinct(changes) && FreshTx(d, tx) && d.journal.None?
    ensures
      var records := Records(sha, d.files, tx, changes);
      var e := Run(d, Flatten(StageGroups(d.files, tx, changes)) + SetJournal(false, records));
      && e.journal == Some(Journal(false, records))
      && Elsewhere(d, e, Targets(changes), tx)
      && (forall p :: 0 <= p < |changes| ==>
            CellOf(e, changes[p].target, tx)
            == Cell(Get(d.files, File(changes[p].target)), changes[p].payload, Get(d.files, File(changes[p].target))))
  {
    var records := Records(sha, d.files, tx, changes);
    var groups, targets := StageGroups(d.files, tx, changes), Targets(changes);
    var ops, mark := Flatten(groups), SetJournal(false, records);
    PhasesGrouped(sha, d.files, tx, changes);
    assert ops[..|ops|] == ops;
    PrefixRun(d, groups, targets, |ops|, mark, tx);
    forall p | 0 <= p < |changes|
      ensures CellOf(Run(d, ops + mark), changes[p].target, tx)
           == Cell(Get(d.files, File(changes[p].target)), changes[p].payload, Get(d.files, File(changes[p].target)))
    {
      assert targets[p] == changes[p].target;
      StagedCell(sha, d.files, tx, changes[p], 0);
    }
    RunSplit(d, ops, mark);
    JournalMark(Run(d, ops), false, records);
  }

  lemma JournalMark(d: Disk, committed: bool, records: seq<Record>)
    ensures Run(d, SetJournal(committed, records)) == d.(journal := Some(Journal(committed, records)), draft := None)
  {
    var d1 := Apply(d, DraftJournal(Journal(committed, records)));
    assert SetJournal(committed, records)[1..] == [PublishJournal];
    assert Run(d1, [PublishJournal]) == Apply(d1, PublishJournal);
  }

  /** What a roll back must find for one target: its backup, and no side file the record does not name. */
  ghost predicate Undoable(files: map<Path, Bytes>, e: Disk, tx: nat, c: Change) {
    var cell := CellOf(e, c.target, tx);
    cell.backup == Get(files, File(c.target)) && (c.payload.None? ==> cell.temp.None?)
  }

  ghost predicate Done(e: Disk, tx: nat, c: Change) {
    CellOf(e, c.target, tx).file == c.payload && CellOf(e, c.target, tx).temp.None?
  }

  /** Stopping anywhere in the switching phase. */
  lemma SwitchedDisk(sha: Bytes -> nat, d: Disk, tx: nat, changes: seq<Change>, e: Disk, k: nat, tail: seq<Op>)
    requires Distinct(changes) && FreshTx(d, tx) && OnJournal(tail)
    requires k <= |Flatten(SwitchGroups(Records(sha, d.files, tx, changes)))|
    requires forall p :: 0 <= p < |changes| ==>
      CellOf(e, changes[p].target, tx)
      == Cell(Get(d.files, File(changes[p].target)), changes[p].payload, Get(d.files, File(changes[p].target)))
    ensures
      var ops := Flatten(SwitchGroups(Records(sha, d.files, tx, changes)));
      var f := Run(e, ops[..k] + tail);
      && Elsewhere(e, f, Targets(changes), tx)
      && (forall p :: 0 <= p < |changes| ==> Undoable(d.files, f, tx, changes[p]))
      && (k == |ops| ==> forall p :: 0 <= p < |changes| ==>
            Done(f, tx, changes[p]) && CellOf(f, changes[p].target, tx).backup == Get(d.files, File(changes[p].target)))
  {
    var records := Records(sha, d.files, tx, changes);
    var groups, targets := SwitchGroups(records), Targets(changes);
    PhasesGrouped(sha, d.files, tx, changes);
    PrefixRun(e, groups, targets, k, tail, tx);
    var f := Run(e, Flatten(groups)[..k] + tail);
    forall p | 0 <= p < |changes|
      ensures Undoable(d.files, f, tx, changes[p])
      ensures k == |Flatten(groups)| ==>
        Done(f, tx, changes[p]) && CellOf(f, changes[p].target, tx).backup == Get(d.files, File(changes[p].target))
    {
      assert targets[p] == changes[p].target;
      assert Partway(e, f, targets[p], tx, groups[p]);
      var m :| 0 <= m <= |groups[p]| && CellOf(f, targets[p], tx) == RunCell(CellOf(e, targets[p], tx), groups[p][..m]);
      StagedCell(sha, d.files, tx, changes[p], m);
      StagedCell(sha, d.files, tx, changes[p], 1);
      assert groups[p][..1] == groups[p];
    }
  }

  // --- Recovery of a crashed commit --------------------------------------------------------------

  ghost predicate Resolvable(sha: Bytes -> nat, d: Disk, committed: bool, records: seq<Record>) {
    forall i :: 0 <= i < |records| ==> ResolveOps(sha, d, committed, records[i]).Some?
  }

  function ResolveGroups(sha: Bytes -> nat, d: Disk, committed: bool, records: seq<Record>): seq<seq<Op>>
    requires Resolvable(sha, d, committed, records)
  {
    seq(|records|, i requires 0 <= i < |records| => ResolveOps(sha, d, committed, records[i]).value)
  }

  lemma ResolveTouches(sha: Bytes -> nat, d: Disk, committed: bool, r: Record)
    ensures
      var ops := ResolveOps(sha, d, committed, r);
      ops.Some? ==> |ops.value| <= 1 && forall k :: 0 <= k < |ops.value| ==> Touches(ops.value[k], r.target)
  {
  }

  ghost predicate DistinctRecords(records: seq<Record>) {
    forall i, j :: 0 <= i < j < |records| ==> records[i].target != records[j].target
  }

  ghost predicate SameSideFiles(d: Disk, e: Disk, r: Record) {
    && Get(e.files, File(r.target)) == Get(d.files, File(r.target))
    && Get(e.files, Temp(r.target, r.tx)) == Get(d.files, Temp(r.target, r.tx))
    && Get(e.files, Backup(r.target, r.tx)) == Get(d.files, Backup(r.target, r.tx))
  }

  lemma SameResolution(sha: Bytes -> nat, d: Disk, e: Disk, committed: bool, r: Record)
    requires SameSideFiles(d, e, r)
    ensures ResolveOps(sha, e, committed, r) == ResolveOps(sha, d, committed, r)
  {
  }

  /** Resolving one record leaves the files of the later ones alone. */
  lemma OthersKept(d: Disk, ops: seq<Op>, records: seq<Record>, i: nat)
    requires i < |records| && DistinctRecords(records) && |ops| <= 1
    requires forall k :: 0 <= k < |ops| ==> Touches(ops[k], records[i].target)
    ensures forall p :: i < p < |records| ==> SameSideFiles(d, Run(d, ops), records[p])
  {
    Extend(d, [], ops);
    assert [] + ops == ops;
  }

  lemma OthersStay(d: Disk, e: Disk, ops: seq<Op>, records: seq<Record>)
    requires records != [] && DistinctRecords(records) && |ops| <= 1
    requires forall k :: 0 <= k < |ops| ==> Touches(ops[k], records[0].target)
    requires forall i :: 0 <= i < |records| ==> SameSideFiles(d, e, records[i])
    ensures DistinctRecords(records[1..]) && forall i :: 0 <= i < |records[1..]| ==>
        SameSideFiles(d, Run(e, ops), records[1..][i])
  {
    OthersKept(e, ops, records, 0);
  }

  /** On distinct targets each record is resolved as if it were alone. */
  lemma {:induction false} ResolvedApart(sha: Bytes -> nat, d: Disk, e: Disk, committed: bool, records: seq<Record>)
    requires DistinctRecords(records) && forall i :: 0 <= i < |records| ==> SameSideFiles(d, e, records[i])
    ensures ResolveAll(sha, e, committed, records).1 <==> Resolvable(sha, d, committed, records)
    ensures Resolvable(sha, d, committed, records) ==>
      ResolveAll(sha, e, committed, records).0 == Flatten(ResolveGroups(sha, d, committed, records))
    decreases |records|
  {
    if records != [] {
      SameResolution(sha, d, e, committed, records[0]);
      ResolveTouches(sha, e, committed, records[0]);
      var ops, tail := ResolveOps(sha, e, committed, records[0]), records[1..];
      ApartSplit(sha, d, committed, records);
      if ops.Some? {
        hide ResolveOps, Resolvable, Run, SameSideFiles, DistinctRecords, Touches, Flatten, ResolveGroups;
        OthersStay(d, e, ops.value, records);
        ResolvedApart(sha, d, Run(e, ops.value), committed, tail);
      }
    }
  }

  lemma ApartSplit(sha: Bytes -> nat, d: Disk, committed: bool, records: seq<Record>)
    requires records != []
    ensures Resolvable(sha, d, committed, records)
       <==> ResolveOps(sha, d, committed, records[0]).Some? && Resolvable(sha, d, committed, records[1..])
    ensures Resolvable(sha, d, committed, records) ==>
      Flatten(ResolveGroups(sha, d, committed, records))
      == ResolveOps(sha, d, committed, records[0]).value + Flatten(ResolveGroups(sha, d, committed, records[1..]))
  {
    hide ResolveOps;
    assert forall i :: 0 < i < |records| ==> records[i] == records[1..][i - 1];
    if Resolvable(sha, d, committed, records) {
      var groups := ResolveGroups(sha, d, committed, records);
      assert groups[1..] == ResolveGroups(sha, d, committed, records[1..]);
    }
  }

  lemma ResolveFlat(sha: Bytes -> nat, d: Disk, committed: bool, records: seq<Record>)
    requires DistinctRecords(records)
    ensures ResolveAll(sha, d, committed, records).1 <==> Resolvable(sha, d, committed, records)
    ensures Resolvable(sha, d, committed, records) ==>
      ResolveAll(sha, d, committed, records) == (Flatten(ResolveGroups(sha, d, committed, records)), true)
  {
    ResolvedApart(sha, d, d, committed, records);
    hide ResolveAll;
  }

  /** A recovery that raises nowhere brings every target through its own two groups and removes the journal. */
  lemma ResolvedRun(sha: Bytes -> nat, d: Disk, e: Disk, tx: nat, changes: seq<Change>, committed: bool)
    requires Distinct(changes)
    requires e.journal == Some(Journal(committed, Records(sha, d.files, tx, changes)))
    requires Resolvable(sha, e, committed, e.journal.value.records)
    ensures
      var records := e.journal.value.records;
      var (r, ok) := Recover(sha, e);
      && ok && r.journal.None?
      && Elsewhere(e, r, Targets(changes), tx)
      && (forall p :: 0 <= p < |changes| ==>
            CellOf(r, changes[p].target, tx)
            == RunCell(RunCell(CellOf(e, changes[p].target, tx), ResolveOps(sha, e, committed, records[p]).value),
                CleanOps(records[p])))
  {
    var records, targets := e.journal.value.records, Targets(changes);
    var undo, clean := ResolveGroups(sha, e, committed, records), CleanGroups(records);
    RecoverPhases(sha, e);
    PhasesGrouped(sha, d.files, tx, changes);
    ResolveGrouped(sha, e, committed, records, targets, tx);
    var a, b := Flatten(undo), Flatten(clean);
    assert a[..|a|] + [] == a && b[..|b|] + [RemoveJournal] == b + [RemoveJournal];
    hide Grouped, AllTx, AllOnFiles, Flatten, Run, RunCell, CellOf, Recover;
    PrefixRun(e, undo, targets, |a|, [], tx);
    PrefixRun(Run(e, a), clean, targets, |b|, [RemoveJournal], tx);
    forall p | 0 <= p < |changes|
      ensures CellOf(Recover(sha, e).0, changes[p].target, tx)
           == RunCell(RunCell(CellOf(e, changes[p].target, tx), undo[p]), CleanOps(records[p]))
    {
      assert targets[p] == changes[p].target && clean[p] == CleanOps(records[p]);
    }
  }

  lemma RecoverPhases(sha: Bytes -> nat, e: Disk)
    requires e.journal.Some? && DistinctRecords(e.journal.value.records)
    requires Resolvable(sha, e, e.journal.value.committed, e.journal.value.records)
    ensures
      var j := e.journal.value;
      var a, b := Flatten(ResolveGroups(sha, e, j.committed, j.records)), Flatten(CleanGroups(j.records));
      Recover(sha, e) == (Run(Run(e, a), b + [RemoveJournal]), true) && Recover(sha, e).0.journal.None?
  {
    var j := e.journal.value;
    var a, b := Flatten(ResolveGroups(sha, e, j.committed, j.records)), Flatten(CleanGroups(j.records));
    ResolveFlat(sha, e, j.committed, j.records);
    assert a + b + [RemoveJournal] == a + (b + [RemoveJournal]);
    RunSplit(e, a, b + [RemoveJournal]);
    RunSplit(Run(e, a), b, [RemoveJournal]);
    assert Run(Run(Run(e, a), b), [RemoveJournal]) == Apply(Run(Run(e, a), b), RemoveJournal);
  }

  lemma ResolveGrouped(sha: Bytes -> nat, e: Disk, committed: bool, records: seq<Record>, targets: seq<Target>, tx: nat)
    requires Resolvable(sha, e, committed, records) && |records| == |targets|
    requires forall i, j :: 0 <= i < j < |targets| ==> targets[i] != targets[j]
    requires forall i :: 0 <= i < |records| ==> records[i].target == targets[i] && records[i].tx == tx
    ensures Grouped(ResolveGroups(sha, e, committed, records), targets)
    ensures AllTx(Flatten(ResolveGroups(sha, e, committed, records)), tx)
  {
    FlattenAll(ResolveGroups(sha, e, committed, records), tx);
  }

  lemma FreshCell(d: Disk, t: Target, tx: nat)
    requires FreshTx(d, tx)
    ensures CellOf(d, t, tx) == Cell(Get(d.files, File(t)), None, None)
  {
    assert Temp(t, tx) !in d.files && Backup(t, tx) !in d.files;
  }

  lemma ElsewhereTransitive(d: Disk, e: Disk, f: Disk, targets: seq<Target>, tx: nat)
    requires Elsewhere(d, e, targets, tx) && Elsewhere(e, f, targets, tx)
    ensures Elsewhere(d, f, targets, tx)
  {
  }

  /** An uncommitted transaction is rolled back: the disk holds exactly the files it held before. */
  lemma RollBack(sha: Bytes -> nat, d: Disk, e: Disk, tx: nat, changes: seq<Change>)
    requires Distinct(changes) && FreshTx(d, tx) && Elsewhere(d, e, Targets(changes), tx)
    requires e.journal == Some(Journal(false, Records(sha, d.files, tx, changes)))
    requires forall p :: 0 <= p < |changes| ==> Undoable(d.files, e, tx, changes[p])
    ensures var (r, ok) := Recover(sha, e); ok && r.journal.None? && r.files == d.files
  {
    var records := e.journal.value.records;
    forall p | 0 <= p < |changes|
      ensures ResolveOps(sha, e, false, records[p]).Some?
      ensures RunCell(RunCell(CellOf(e, changes[p].target, tx), ResolveOps(sha, e, false, records[p]).value),
          CleanOps(records[p]))
           == Cell(Get(d.files, File(changes[p].target)), None, None)
    {
      UndoneCell(sha, d.files, e, tx, changes[p]);
    }
    ResolvedRun(sha, d, e, tx, changes, false);
    var r := Recover(sha, e).0;
    ElsewhereTransitive(d, e, r, Targets(changes), tx);
    forall t | t in Targets(changes) ensures CellOf(r, t, tx) == CellOf(d, t, tx) {
      FreshCell(d, t, tx);
      var p :| 0 <= p < |changes| && changes[p].target == t;
    }
    SameFiles(d, r, Targets(changes), tx);
  }

  lemma OneCell(c: Cell, op: Op)
    ensures RunCell(c, [op]) == ApplyCell(c, op)
  {
    assert RunCell(ApplyCell(c, op), []) == ApplyCell(c, op);
  }

  lemma UndoneCell(sha: Bytes -> nat, files: map<Path, Bytes>, e: Disk, tx: nat, c: Change)
    requires Undoable(files, e, tx, c)
    ensures
      var record := RecordOf(sha, files, tx, c);
      && UndoOps(e, record).Some?
      && RunCell(RunCell(CellOf(e, c.target, tx), UndoOps(e, record).value), CleanOps(record))
         == Cell(Get(files, File(c.target)), None, None)
  {
    var record, cell := RecordOf(sha, files, tx, c), CellOf(e, c.target, tx);
    assert cell.backup == Get(e.files, Backup(c.target, tx));
    var undone := RunCell(cell, UndoOps(e, record).value);
    OneCell(cell, UndoOps(e, record).value[0]);
    CleanedCell(sha, files, tx, c, undone, 0);
  }

  /** The files after the changes. */
  function Changed(files: map<Path, Bytes>, changes: seq<Change>): map<Path, Bytes>
    decreases |changes|
  {
    if changes == [] then files
    else
      var file := File(changes[0].target);
      var payload := changes[0].payload;
      Changed(if payload.Some? then files[file := payload.value] else files - {file}, changes[1..])
  }

  lemma {:induction false} ChangedFiles(files: map<Path, Bytes>, changes: seq<Change>, p: Path)
    requires Distinct(changes)
    ensures (!p.File? || p.target !in Targets(changes)) ==> Get(Changed(files, changes), p) == Get(files, p)
    ensures forall i :: 0 <= i < |changes| && p == File(changes[i].target) ==>
        Get(Changed(files, changes), p) == changes[i].payload
    decreases |changes|
  {
    if changes != [] {
      var file := File(changes[0].target);
      var next := if changes[0].payload.Some? then files[file := changes[0].payload.value] else files - {file};
      ChangedFiles(next, changes[1..], p);
      assert Targets(changes)[0] == changes[0].target;
      assert forall i :: 0 <= i < |changes[1..]| ==> Targets(changes)[i + 1] == Targets(changes[1..])[i];
      if p == file {
        forall i | 0 <= i < |changes[1..]| ensures Targets(changes[1..])[i] != p.target {
          assert changes[i + 1] == changes[1..][i];
        }
      }
    }
  }

  /** Done, and a backup only for a file that existed. */
  ghost predicate Committed(files: map<Path, Bytes>, e: Disk, tx: nat, c: Change) {
    Done(e, tx, c) && (File(c.target) !in files ==> CellOf(e, c.target, tx).backup.None?)
  }

  /**
    What a roll forward must find for one target: nothing to write; or the new content in place; or
    the new content beside it, with the old one gone or of another checksum.
  */
  ghost predicate Completable(sha: Bytes -> nat, files: map<Path, Bytes>, e: Disk, tx: nat, c: Change) {
    var cell := CellOf(e, c.target, tx);
    && (File(c.target) !in files ==> cell.backup.None?)
    && match c.payload
       case None => cell.temp.None?
       case Some(data) =>
         cell.file == c.payload || (cell.temp == c.payload && (cell.file.None? || sha(cell.file.value) != sha(data)))
  }

  /**
    A recovery of a committed journal leaves exactly the changed files if and only if every target is
    completable; a target whose rename is still to be made is one.
  */
  lemma {:induction false} RollForward(sha: Bytes -> nat, d: Disk, e: Disk, tx: nat, changes: seq<Change>)
    requires Distinct(changes) && FreshTx(d, tx) && Elsewhere(d, e, Targets(changes), tx)
    requires e.journal == Some(Journal(true, Records(sha, d.files, tx, changes)))
    ensures
      var (r, ok) := Recover(sha, e);
      && (ok ==> r.journal.None?)
      && (ok && r.files == Changed(d.files, changes)
          <==> forall p :: 0 <= p < |changes| ==> Completable(sha, d.files, e, tx, changes[p]))
  {
    var records := e.journal.value.records;
    forall p | 0 <= p < |changes| && Completable(sha, d.files, e, tx, changes[p])
      ensures ResolveOps(sha, e, true, records[p]).Some?
    {
      RedoneCellIff(sha, d.files, e, tx, changes[p]);
    }
    if Resolvable(sha, e, true, records) {
      RollForwardResolved(sha, d, e, tx, changes);
    } else {
      var i :| 0 <= i < |records| && ResolveOps(sha, e, true, records[i]).None?;
      UnresolvableRaises(sha, e, true, records, i);
    }
  }

  predicate Holds(sha: Bytes -> nat, content: Option<Bytes>, data: Bytes) {
    content.Some? && sha(content.value) == sha(data)
  }

  /** What either recovery needs of one target: new content in one of two places, or a backup of a file that existed. */
  ghost predicate Settleable(
      sha: Bytes -> nat, files: map<Path, Bytes>, e: Disk, tx: nat, committed: bool, c: Change)
  {
    var cell := CellOf(e, c.target, tx);
    if committed then c.payload.None? || Holds(sha, cell.file, c.payload.value)
        || Holds(sha, cell.temp, c.payload.value)
    else File(c.target) !in files || cell.backup.Some?
  }

  /** The target as a recovery that succeeded leaves it: new content by its checksum, or the backup. */
  ghost predicate SettledAs(
      sha: Bytes -> nat, files: map<Path, Bytes>, e: Disk, r: Disk, tx: nat, committed: bool, c: Change)
  {
    var (before, after) := (CellOf(e, c.target, tx), CellOf(r, c.target, tx));
    if committed then if c.payload.None? then after.file.None? else Holds(sha, after.file, c.payload.value)
    else after.file == if File(c.target) in files then before.backup else None
  }

  /**
    On any disk with a journal of these changes: recovery succeeds if and only if each target can be settled, and
    then each is settled and the journal gone. A recovery that raises keeps the journal for the next one.
  */
  lemma RecoverySucceedsIff(sha: Bytes -> nat, d: Disk, e: Disk, tx: nat, changes: seq<Change>, committed: bool)
    requires Distinct(changes) && e.journal == Some(Journal(committed, Records(sha, d.files, tx, changes)))
    ensures
      var (r, ok) := Recover(sha, e);
      && (ok <==> forall p :: 0 <= p < |changes| ==> Settleable(sha, d.files, e, tx, committed, changes[p]))
      && (ok ==> r.journal.None? && forall p :: 0 <= p < |changes| ==>
                   SettledAs(sha, d.files, e, r, tx, committed, changes[p]))
      && (!ok ==> r.journal == e.journal)
  {
    var records := e.journal.value.records;
    assert DistinctRecords(records);
    hide Recover, SettledAs, Settleable, ResolveOps, CellOf, RunCell, DistinctRecords;
    forall p | 0 <= p < |changes|
      ensures Settleable(sha, d.files, e, tx, committed, changes[p])
          <==> ResolveOps(sha, e, committed, records[p]).Some?
    {
      SettlesOne(sha, d.files, e, tx, committed, changes[p]);
    }
    if Resolvable(sha, e, committed, records) {
      ResolvedRun(sha, d, e, tx, changes, committed);
      forall p | 0 <= p < |changes| ensures SettledAs(sha, d.files, e, Recover(sha, e).0, tx, committed, changes[p]) {
        SettlesOne(sha, d.files, e, tx, committed, changes[p]);
        LeavesOne(sha, d.files, e, Recover(sha, e).0, tx, committed, changes[p]);
      }
    } else {
      RaisingKeepsJournal(sha, e);
    }
  }

  lemma SettlesOne(sha: Bytes -> nat, files: map<Path, Bytes>, e: Disk, tx: nat, committed: bool, c: Change)
    ensures Settleable(sha, files, e, tx, committed, c)
       <==> ResolveOps(sha, e, committed, RecordOf(sha, files, tx, c)).Some?
  {
  }

  lemma LeavesOne(sha: Bytes -> nat, files: map<Path, Bytes>, e: Disk, r: Disk, tx: nat, committed: bool, c: Change)
    requires ResolveOps(sha, e, committed, RecordOf(sha, files, tx, c)).Some?
    requires
      var record := RecordOf(sha, files, tx, c);
      CellOf(r, c.target, tx)
      == RunCell(RunCell(CellOf(e, c.target, tx), ResolveOps(sha, e, committed, record).value), CleanOps(record))
    ensures SettledAs(sha, files, e, r, tx, committed, c)
  {
    var record, cell := RecordOf(sha, files, tx, c), CellOf(e, c.target, tx);
    var ops := ResolveOps(sha, e, committed, record).value;
    CleanedSides(sha, files, tx, c, RunCell(cell, ops));
    if ops != [] {
      assert ops == [ops[0]];
      OneCell(cell, ops[0]);
    }
    hide CleanOps;
  }

  lemma RaisingKeepsJournal(sha: Bytes -> nat, e: Disk)
    requires e.journal.Some? && DistinctRecords(e.journal.value.records)
    requires !Resolvable(sha, e, e.journal.value.committed, e.journal.value.records)
    ensures !Recover(sha, e).1 && Recover(sha, e).0.journal == e.journal
  {
    var j := e.journal.value;
    ResolveFlat(sha, e, j.committed, j.records);
    ResolvingKeepsJournal(sha, e, j.committed, j.records);
    hide ResolveAll, Run;
  }

  /** No operation on a record touches the journal. */
  lemma {:induction false} ResolvingKeepsJournal(sha: Bytes -> nat, d: Disk, committed: bool, records: seq<Record>)
    ensures Run(d, ResolveAll(sha, d, committed, records).0).journal == d.journal
    decreases |records|
  {
    if records != [] && ResolveOps(sha, d, committed, records[0]).Some? {
      var ops := ResolveOps(sha, d, committed, records[0]).value;
      ResolveTouches(sha, d, committed, records[0]);
      JournalKept(d, ops);
      hide ResolveOps, Run;
      ResolvingKeepsJournal(sha, Run(d, ops), committed, records[1..]);
      RunSplit(d, ops, ResolveAll(sha, Run(d, ops), committed, records[1..]).0);
    }
  }

  lemma {:induction false} RollForwardResolved(sha: Bytes -> nat, d: Disk, e: Disk, tx: nat, changes: seq<Change>)
    requires Distinct(changes) && FreshTx(d, tx) && Elsewhere(d, e, Targets(changes), tx)
    requires e.journal == Some(Journal(true, Records(sha, d.files, tx, changes)))
    requires Resolvable(sha, e, true, e.journal.value.records)
    ensures
      var (r, ok) := Recover(sha, e);
      && ok && r.journal.None?
      && (r.files == Changed(d.files, changes)
          <==> forall p :: 0 <= p < |changes| ==> Completable(sha, d.files, e, tx, changes[p]))
  {
    ResolvedRun(sha, d, e, tx, changes, true);
    var r := Recover(sha, e).0;
    hide Recover, Resolvable;
    ElsewhereTransitive(d, e, r, Targets(changes), tx);
    forall p | 0 <= p < |changes|
      ensures Completable(sha, d.files, e, tx, changes[p])
          <==> CellOf(r, changes[p].target, tx) == Cell(changes[p].payload, None, None)
    {
      RedoneCellIff(sha, d.files, e, tx, changes[p]);
    }
    hide Completable, Elsewhere, Records, ResolveOps;
    if forall p :: 0 <= p < |changes| ==> Completable(sha, d.files, e, tx, changes[p]) {
      CompletedFiles(d, r, tx, changes);
    } else if r.files == Changed(d.files, changes) {
      forall p | 0 <= p < |changes| ensures CellOf(r, changes[p].target, tx) == Cell(changes[p].payload, None, None) {
        ChangedCell(d, r, tx, changes, p);
      }
    }
  }

  lemma ChangedCell(d: Disk, r: Disk, tx: nat, changes: seq<Change>, p: nat)
    requires Distinct(changes) && FreshTx(d, tx) && p < |changes| && r.files == Changed(d.files, changes)
    ensures CellOf(r, changes[p].target, tx) == Cell(changes[p].payload, None, None)
  {
    var t := changes[p].target;
    FreshCell(d, t, tx);
    ChangedFiles(d.files, changes, File(t));
    ChangedFiles(d.files, changes, Temp(t, tx));
    ChangedFiles(d.files, changes, Backup(t, tx));
  }

  /** The recovery of one target ends with its new content alone exactly when it is completable. */
  lemma RedoneCellIff(sha: Bytes -> nat, files: map<Path, Bytes>, e: Disk, tx: nat, c: Change)
    ensures
      var record, cell := RecordOf(sha, files, tx, c), CellOf(e, c.target, tx);
      var redo := RedoOps(sha, e, record);
      && (Completable(sha, files, e, tx, c) ==>
            && redo.Some? && RunCell(cell, redo.value).file == c.payload
            && RunCell(cell, redo.value).backup == cell.backup
            && (c.payload.None? ==> RunCell(cell, redo.value).temp.None?))
      && (Completable(sha, files, e, tx, c)
          <==> redo.Some? && RunCell(RunCell(cell, redo.value), CleanOps(record)) == Cell(c.payload, None, None))
  {
    var record, cell := RecordOf(sha, files, tx, c), CellOf(e, c.target, tx);
    assert cell.file == Get(e.files, File(c.target)) && cell.temp == Get(e.files, Temp(c.target, tx));
    OneCell(cell, RemoveFile(c.target));
    OneCell(cell, TempToFile(c.target, tx));
    if RedoOps(sha, e, record).Some? {
      CleanedSides(sha, files, tx, c, RunCell(cell, RedoOps(sha, e, record).value));
    }
  }

  /** Cleaning removes exactly the side files that the record names. */
  lemma CleanedSides(sha: Bytes -> nat, files: map<Path, Bytes>, tx: nat, c: Change, cell: Cell)
    ensures
      RunCell(cell, CleanOps(RecordOf(sha, files, tx, c)))
      == Cell(cell.file, if c.payload.Some? then None else cell.temp,
              if File(c.target) in files then None else cell.backup)
  {
    var temp := if c.payload.Some? then [RemoveTemp(c.target, tx)] else [];
    var backup := if File(c.target) in files then [RemoveBackup(c.target, tx)] else [];
    RunCellSplit(cell, temp, backup);
    assert CleanOps(RecordOf(sha, files, tx, c)) == temp + backup;
  }

  lemma CompletedFiles(d: Disk, r: Disk, tx: nat, changes: seq<Change>)
    requires Distinct(changes) && FreshTx(d, tx) && Elsewhere(d, r, Targets(changes), tx)
    requires forall p :: 0 <= p < |changes| ==> CellOf(r, changes[p].target, tx) == Cell(changes[p].payload, None, None)
    ensures r.files == Changed(d.files, changes)
  {
    var g := d.(files := Changed(d.files, changes));
    forall p: Path | p.target !in Targets(changes) || (!p.File? && p.tx != tx)
        ensures Get(r.files, p) == Get(g.files, p) {
      ChangedFiles(d.files, changes, p);
    }
    assert Elsewhere(g, r, Targets(changes), tx);
    forall t | t in Targets(changes) ensures CellOf(r, t, tx) == CellOf(g, t, tx) {
      FreshCell(d, t, tx);
      var p :| 0 <= p < |changes| && changes[p].target == t;
      ChangedFiles(d.files, changes, File(t));
      ChangedFiles(d.files, changes, Temp(t, tx));
      ChangedFiles(d.files, changes, Backup(t, tx));
    }
    SameFiles(g, r, Targets(changes), tx);
  }

  // --- Crashes ---------------------------------------------------------------------------------------

  /** The machine stops before operation `k`, or inside it when `torn` says what a write left behind. */
  function Crash(d: Disk, ops: seq<Op>, k: nat, torn: Option<Bytes>): Disk
    requires k <= |ops|
  {
    var e := Run(d, ops[..k]);
    if torn.Some? && k < |ops| then Torn(e, ops[k], torn.value) else e
  }

  /** The targets alone, as they are once orphaned side files are gone. */
  function TargetFiles(files: map<Path, Bytes>): map<Path, Bytes> {
    map p | p in files && p.File? :: files[p]
  }

  lemma CrashWhileStaging(sha: Bytes -> nat, d: Disk, tx: nat, changes: seq<Change>, k: nat, torn: Option<Bytes>)
    requires Distinct(changes) && d.journal.None? && k <= |Flatten(StageGroups(d.files, tx, changes))| + 1
    ensures k <= |CommitOps(sha, d, tx, changes)|
    ensures
      var (r, ok) := Recover(sha, Crash(d, CommitOps(sha, d, tx, changes), k, torn));
      ok && r.journal.None? && TargetFiles(r.files) == TargetFiles(d.files)
  {
    var s, ops := Flatten(StageGroups(d.files, tx, changes)), CommitOps(sha, d, tx, changes);
    var draft := DraftJournal(Journal(false, Records(sha, d.files, tx, changes)));
    forall i | 0 <= i < |s| ensures Staging(s[i]) {
      FlattenOps(StageGroups(d.files, tx, changes), s[i]);
    }
    assert ops[..k] == (s + [draft])[..k] by {
      assert ops[..|s|] == s && ops[|s|] == draft;
    }
    StagingKeepsTargets(d, ops[..k]);
    var e := Run(d, ops[..k]);
    assert TargetFiles(e.files) == CleanOrphans(e).files && TargetFiles(d.files) == CleanOrphans(d).files;
    var c := Crash(d, ops, k, torn);
    assert TargetFiles(c.files) == TargetFiles(e.files) && c.journal.None?;
    assert Recover(sha, c) == (Run(c, []), true);
  }

  /** The operations of a commit up to place `k`, once the first journal is published. */
  lemma SplitWhileSwitching(sha: Bytes -> nat, d: Disk, tx: nat, changes: seq<Change>, k: nat)
    requires |Flatten(StageGroups(d.files, tx, changes))| + 2 <= k < CommitPoint(sha, d, tx, changes)
    ensures
      var records := Records(sha, d.files, tx, changes);
      var s, w := Flatten(StageGroups(d.files, tx, changes)), Flatten(SwitchGroups(records));
      var n := k - |s| - 2;
      && k < |CommitOps(sha, d, tx, changes)|
      && CommitOps(sha, d, tx, changes)[..k]
         == (s + SetJournal(false, records))
            + (if n <= |w| then w[..n] + [] else w[..|w|] + [DraftJournal(Journal(true, records))])
  {
  }

  lemma CrashWhileSwitching(sha: Bytes -> nat, d: Disk, tx: nat, changes: seq<Change>, k: nat)
    requires Distinct(changes) && FreshTx(d, tx) && d.journal.None?
    requires |Flatten(StageGroups(d.files, tx, changes))| + 2 <= k < CommitPoint(sha, d, tx, changes)
    ensures k < |CommitOps(sha, d, tx, changes)|
    ensures
      var records := Records(sha, d.files, tx, changes);
      var e := Run(d, CommitOps(sha, d, tx, changes)[..k]);
      && e.journal == Some(Journal(false, records))
      && Elsewhere(d, e, Targets(changes), tx)
      && (forall p :: 0 <= p < |changes| ==> Undoable(d.files, e, tx, changes[p]))
  {
    var records := Records(sha, d.files, tx, changes);
    var s, w := Flatten(StageGroups(d.files, tx, changes)), Flatten(SwitchGroups(records));
    var n := k - |s| - 2;
    SplitWhileSwitching(sha, d, tx, changes, k);
    StagedDisk(sha, d, tx, changes);
    hide Elsewhere, CellOf, SetJournal, CommitOps, Flatten, Undoable;
    var m := if n <= |w| then n else |w|;
    var tail := if n <= |w| then [] else [DraftJournal(Journal(true, records))];
    var d1 := Run(d, s + SetJournal(false, records));
    RunSplit(d, s + SetJournal(false, records), w[..m] + tail);
    SwitchedDisk(sha, d, tx, changes, d1, m, tail);
    ElsewhereTransitive(d, d1, Run(d1, w[..m] + tail), Targets(changes), tx);
    SwitchingKeepsJournal(sha, d, tx, changes, d1, m, tail);
  }

  lemma SwitchingKeepsJournal(
      sha: Bytes -> nat, d: Disk, tx: nat, changes: seq<Change>, d1: Disk, m: nat, tail: seq<Op>)
    requires Distinct(changes) && m <= |Flatten(SwitchGroups(Records(sha, d.files, tx, changes)))|
    requires tail == [] || (|tail| == 1 && tail[0].DraftJournal?)
    ensures Run(d1, Flatten(SwitchGroups(Records(sha, d.files, tx, changes)))[..m] + tail).journal == d1.journal
  {
    var w := Flatten(SwitchGroups(Records(sha, d.files, tx, changes)));
    PhasesGrouped(sha, d.files, tx, changes);
    JournalKept(d1, w[..m]);
    RunSplit(d1, w[..m], tail);
    assert tail != [] ==> Run(Run(d1, w[..m]), tail) == Apply(Run(d1, w[..m]), tail[0]);
  }

  /** After the switch and the second journal. */
  lemma SwitchedAndMarked(sha: Bytes -> nat, d: Disk, tx: nat, changes: seq<Change>)
    requires Distinct(changes) && FreshTx(d, tx) && d.journal.None?
    ensures
      var records := Records(sha, d.files, tx, changes);
      var s, w := Flatten(StageGroups(d.files, tx, changes)), Flatten(SwitchGroups(records));
      var e := Run(Run(d, s + SetJournal(false, records)), w + SetJournal(true, records));
      Elsewhere(d, e, Targets(changes), tx) && Switched(sha, d, tx, changes, e)
  {
    var records := Records(sha, d.files, tx, changes);
    var s, w := Flatten(StageGroups(d.files, tx, changes)), Flatten(SwitchGroups(records));
    var d1, mark := Run(d, s + SetJournal(false, records)), SetJournal(true, records);
    StagedDisk(sha, d, tx, changes);
    assert w[..|w|] + mark == w + mark;
    SwitchedDisk(sha, d, tx, changes, d1, |w|, mark);
    ElsewhereTransitive(d, d1, Run(d1, w + mark), Targets(changes), tx);
    RunSplit(d1, w, mark);
    JournalMark(Run(d1, w), true, records);
  }

  lemma SplitWhileCleaning(sha: Bytes -> nat, d: Disk, tx: nat, changes: seq<Change>, k: nat)
    requires CommitPoint(sha, d, tx, changes) <= k <= |CommitOps(sha, d, tx, changes)|
    ensures
      var records := Records(sha, d.files, tx, changes);
      var s, w, b := Flatten(StageGroups(d.files, tx, changes)), Flatten(SwitchGroups(records)),
          Flatten(CleanGroups(records));
      var n := k - CommitPoint(sha, d, tx, changes);
      && n <= |b| + 1
      && CommitOps(sha, d, tx, changes)[..k]
         == (s + SetJournal(false, records)) + ((w + SetJournal(true, records))
            + (if n <= |b| then b[..n] + [] else b[..|b|] + [RemoveJournal]))
  {
    hide Flatten, Records, StageGroups, SwitchGroups, CleanGroups;
    var records := Records(sha, d.files, tx, changes);
    var s, w, b := Flatten(StageGroups(d.files, tx, changes)), Flatten(SwitchGroups(records)),
        Flatten(CleanGroups(records));
    assert CommitOps(sha, d, tx, changes)
        == s + SetJournal(false, records) + w + SetJournal(true, records) + b + [RemoveJournal];
    assert k <= CommitPoint(sha, d, tx, changes) + |b| + 1;
    var n := k - CommitPoint(sha, d, tx, changes);
    assert |s + SetJournal(false, records)| + |w + SetJournal(true, records)| == CommitPoint(sha, d, tx, changes);
    hide *;
    CutInTail(s + SetJournal(false, records), w, SetJournal(true, records), b, n);
  }

  lemma CutInTail(a: seq<Op>, w: seq<Op>, m: seq<Op>, b: seq<Op>, n: nat)
    requires n <= |b| + 1
    ensures (a + w + m + b + [RemoveJournal])[..|a| + |w + m| + n]
         == a + ((w + m) + (if n <= |b| then b[..n] + [] else b[..|b|] + [RemoveJournal]))
  {
  }

  lemma CrashWhileCleaning(sha: Bytes -> nat, d: Disk, tx: nat, changes: seq<Change>, k: nat)
    requires Distinct(changes) && FreshTx(d, tx) && d.journal.None?
    requires CommitPoint(sha, d, tx, changes) <= k <= |CommitOps(sha, d, tx, changes)|
    ensures
      var e := Run(d, CommitOps(sha, d, tx, changes)[..k]);
      && Elsewhere(d, e, Targets(changes), tx)
      && (if k < |CommitOps(sha, d, tx, changes)| then CleaningLeft(sha, d, tx, changes, e)
          else CleaningDone(tx, changes, e))
  {
    var records := Records(sha, d.files, tx, changes);
    var s, w, b := Flatten(StageGroups(d.files, tx, changes)), Flatten(SwitchGroups(records)),
        Flatten(CleanGroups(records));
    var n := k - CommitPoint(sha, d, tx, changes);
    var d1 := Run(d, s + SetJournal(false, records));
    var d2 := Run(d1, w + SetJournal(true, records));
    var rest := if n <= |b| then b[..n] + [] else b[..|b|] + [RemoveJournal];
    SplitWhileCleaning(sha, d, tx, changes, k);
    SwitchedAndMarked(sha, d, tx, changes);
    assert n <= |b| <==> k < |CommitOps(sha, d, tx, changes)|;
    hide Elsewhere, CommitOps, SetJournal, Flatten, CellOf, CleaningLeft, CleaningDone;
    RunSplit(d, s + SetJournal(false, records), (w + SetJournal(true, records)) + rest);
    RunSplit(d1, w + SetJournal(true, records), rest);
    if n <= |b| { CleaningPrefix(sha, d, tx, changes, d2, n); } else { CleaningWhole(sha, d, tx, changes, d2); }
    ElsewhereTransitive(d, d2, Run(d2, rest), Targets(changes), tx);
  }

  ghost predicate CleaningLeft(sha: Bytes -> nat, d: Disk, tx: nat, changes: seq<Change>, e: Disk) {
    && e.journal == Some(Journal(true, Records(sha, d.files, tx, changes)))
    && forall p :: 0 <= p < |changes| ==> Committed(d.files, e, tx, changes[p])
  }

  ghost predicate CleaningDone(tx: nat, changes: seq<Change>, e: Disk) {
    && e.journal.None?
    && forall p :: 0 <= p < |changes| ==> CellOf(e, changes[p].target, tx) == Cell(changes[p].payload, None, None)
  }

  ghost predicate Switched(sha: Bytes -> nat, d: Disk, tx: nat, changes: seq<Change>, d2: Disk) {
    && d2.journal == Some(Journal(true, Records(sha, d.files, tx, changes)))
    && forall p :: 0 <= p < |changes| ==>
         CellOf(d2, changes[p].target, tx) == Cell(changes[p].payload, None, Get(d.files, File(changes[p].target)))
  }

  lemma CleaningPrefix(sha: Bytes -> nat, d: Disk, tx: nat, changes: seq<Change>, d2: Disk, n: nat)
    requires Distinct(changes) && Switched(sha, d, tx, changes, d2)
    requires n <= |Flatten(CleanGroups(Records(sha, d.files, tx, changes)))|
    ensures
      var e := Run(d2, Flatten(CleanGroups(Records(sha, d.files, tx, changes)))[..n] + []);
      CleaningLeft(sha, d, tx, changes, e) && Elsewhere(d2, e, Targets(changes), tx)
  {
    var groups, targets := CleanGroups(Records(sha, d.files, tx, changes)), Targets(changes);
    var b := Flatten(groups);
    PhasesGrouped(sha, d.files, tx, changes);
    PrefixRun(d2, groups, targets, n, [], tx);
    var e := Run(d2, b[..n] + []);
    RunSplit(d2, b[..n], []);
    JournalKept(d2, b[..n]);
    hide Elsewhere, Run, Partway, Committed, Grouped;
    forall p | 0 <= p < |changes| ensures Committed(d.files, e, tx, changes[p]) {
      assert targets[p] == changes[p].target;
      CleaningCell(sha, d, tx, changes, d2, e, p, false);
    }
  }

  lemma CleaningWhole(sha: Bytes -> nat, d: Disk, tx: nat, changes: seq<Change>, d2: Disk)
    requires Distinct(changes) && Switched(sha, d, tx, changes, d2)
    ensures
      var b := Flatten(CleanGroups(Records(sha, d.files, tx, changes)));
      var e := Run(d2, b[..|b|] + [RemoveJournal]);
      CleaningDone(tx, changes, e) && Elsewhere(d2, e, Targets(changes), tx)
  {
    var groups, targets := CleanGroups(Records(sha, d.files, tx, changes)), Targets(changes);
    var b := Flatten(groups);
    PhasesGrouped(sha, d.files, tx, changes);
    PrefixRun(d2, groups, targets, |b|, [RemoveJournal], tx);
    var e := Run(d2, b[..|b|] + [RemoveJournal]);
    RunSplit(d2, b[..|b|], [RemoveJournal]);
    assert e == Apply(Run(d2, b[..|b|]), RemoveJournal);
    hide Elsewhere, Run, Partway, Committed, Grouped;
    forall p | 0 <= p < |changes| ensures CellOf(e, changes[p].target, tx) == Cell(changes[p].payload, None, None) {
      assert targets[p] == changes[p].target;
      CleaningCell(sha, d, tx, changes, d2, e, p, true);
    }
  }

  lemma CleaningCell(sha: Bytes -> nat, d: Disk, tx: nat, changes: seq<Change>, d2: Disk, e: Disk, p: nat, whole: bool)
    requires p < |changes|
    requires CellOf(d2, changes[p].target, tx) == Cell(changes[p].payload, None, Get(d.files, File(changes[p].target)))
    requires
      var group := CleanOps(RecordOf(sha, d.files, tx, changes[p]));
      && Partway(d2, e, changes[p].target, tx, group)
      && (whole ==> CellOf(e, changes[p].target, tx) == RunCell(CellOf(d2, changes[p].target, tx), group))
    ensures Committed(d.files, e, tx, changes[p])
    ensures whole ==> CellOf(e, changes[p].target, tx) == Cell(changes[p].payload, None, None)
  {
    var group, cell := CleanOps(RecordOf(sha, d.files, tx, changes[p])), CellOf(d2, changes[p].target, tx);
    var m :| 0 <= m <= |group| && CellOf(e, changes[p].target, tx) == RunCell(cell, group[..m]);
    CleanedCell(sha, d.files, tx, changes[p], cell, m);
  }

  /**
    A crash at any place of a commit, inside a write or between two operations, followed by
    one uninterrupted recovery, leaves every target as it was before the commit point and as
    the changes say from there on, never a mix, and no journal.
  */
  lemma CommitIsAtomic(sha: Bytes -> nat, d: Disk, tx: nat, changes: seq<Change>, k: nat, torn: Option<Bytes>)
    requires Distinct(changes) && FreshTx(d, tx) && d.journal.None? && k <= |CommitOps(sha, d, tx, changes)|
    ensures
      var (r, ok) := Recover(sha, Crash(d, CommitOps(sha, d, tx, changes), k, torn));
      && ok && r.journal.None?
      && TargetFiles(r.files)
         == TargetFiles(if k < CommitPoint(sha, d, tx, changes) then d.files else Changed(d.files, changes))
  {
    var ops := CommitOps(sha, d, tx, changes);
    if k <= |Flatten(StageGroups(d.files, tx, changes))| + 1 {
      CrashWhileStaging(sha, d, tx, changes, k, torn);
    } else {
      var e := Run(d, ops[..k]);
      if k < |ops| { NoWritesAfterStaging(sha, d, tx, changes, k); }
      assert Crash(d, ops, k, torn) == e;
      if k < CommitPoint(sha, d, tx, changes) {
        CrashWhileSwitching(sha, d, tx, changes, k);
        RollBack(sha, d, e, tx, changes);
      } else {
        CrashWhileCleaning(sha, d, tx, changes, k);
        if k < |ops| {
          assert forall p :: 0 <= p < |changes| ==> Committed(d.files, e, tx, changes[p]);
          RollForward(sha, d, e, tx, changes);
        } else {
          CompletedFiles(d, e, tx, changes);
          assert Recover(sha, e) == (Run(e, []), true);
        }
      }
    }
  }

  lemma NoWritesAfterStaging(sha: Bytes -> nat, d: Disk, tx: nat, changes: seq<Change>, k: nat)
    requires |Flatten(StageGroups(d.files, tx, changes))| <= k < |CommitOps(sha, d, tx, changes)|
    ensures !CommitOps(sha, d, tx, changes)[k].CopyToBackup? && !CommitOps(sha, d, tx, changes)[k].WriteTemp?
  {
    var records := Records(sha, d.files, tx, changes);
    var s, w, b := Flatten(StageGroups(d.files, tx, changes)), Flatten(SwitchGroups(records)),
        Flatten(CleanGroups(records));
    var op := CommitOps(sha, d, tx, changes)[k];
    var rest := SetJournal(false, records) + w + SetJournal(true, records) + b + [RemoveJournal];
    assert CommitOps(sha, d, tx, changes) == s + rest;
    assert op == rest[k - |s|];
    if op in w { FlattenOps(SwitchGroups(records), op); }
    if op in b { FlattenOps(CleanGroups(records), op); }
  }

  // --- Interrupted recoveries ---------------------------------------------------------------------------

  /** A committed transaction that can be completed. */
  ghost predicate Forwarding(sha: Bytes -> nat, d: Disk, e: Disk, tx: nat, changes: seq<Change>) {
    && Elsewhere(d, e, Targets(changes), tx)
    && e.journal == Some(Journal(true, Records(sha, d.files, tx, changes)))
    && forall p :: 0 <= p < |changes| ==> Completable(sha, d.files, e, tx, changes[p])
  }

  /** What a recovery of such a transaction does: renames and deletions, the cleaning, then the journal goes. */
  lemma ForwardPlan(sha: Bytes -> nat, d: Disk, e: Disk, tx: nat, changes: seq<Change>)
    requires Distinct(changes) && Forwarding(sha, d, e, tx, changes)
    ensures
      var records := Records(sha, d.files, tx, changes);
      && Resolvable(sha, e, true, records)
      && RecoverOps(sha, e)
          == (Flatten(ResolveGroups(sha, e, true, records)) + Flatten(CleanGroups(records)) + [RemoveJournal], true)
  {
    var records := Records(sha, d.files, tx, changes);
    forall p | 0 <= p < |records| ensures ResolveOps(sha, e, true, records[p]).Some? {
      RedoneCellIff(sha, d.files, e, tx, changes[p]);
    }
    ResolveFlat(sha, e, true, records);
  }

  /** Before the journal goes, a recovery that stops leaves a transaction that can be completed. */
  lemma ForwardPrefix(sha: Bytes -> nat, d: Disk, e: Disk, tx: nat, changes: seq<Change>, j: nat)
    requires Distinct(changes) && Forwarding(sha, d, e, tx, changes) && j < |RecoverOps(sha, e).0|
    ensures Forwarding(sha, d, Run(e, RecoverOps(sha, e).0[..j]), tx, changes)
  {
    hide RecoverOps, Flatten, CleanGroups, ResolveOps, Run;
    var records := Records(sha, d.files, tx, changes);
    ForwardPlan(sha, d, e, tx, changes);
    var redo := ResolveGroups(sha, e, true, records);
    var a, b := Flatten(redo), Flatten(CleanGroups(records));
    if j <= |a| {
      assert (a + b + [RemoveJournal])[..j] == a[..j];
      RedoPrefix(sha, d, e, tx, changes, j);
    } else {
      assert (a + b + [RemoveJournal])[..j] == a + b[..j - |a|];
      RunSplit(e, a, b[..j - |a|]);
      RedoPrefix(sha, d, e, tx, changes, |a|);
      assert a[..|a|] == a;
      CleanPrefix(sha, d, Run(e, a), tx, changes, j - |a|);
    }
  }

  /** Stopping among the renames and deletions; after all of them every target holds its new content. */
  lemma RedoPrefix(sha: Bytes -> nat, d: Disk, e: Disk, tx: nat, changes: seq<Change>, k: nat)
    requires Distinct(changes) && Forwarding(sha, d, e, tx, changes)
    requires Resolvable(sha, e, true, Records(sha, d.files, tx, changes))
    requires k <= |Flatten(ResolveGroups(sha, e, true, Records(sha, d.files, tx, changes)))|
    ensures
      var a := Flatten(ResolveGroups(sha, e, true, Records(sha, d.files, tx, changes)));
      var f := Run(e, a[..k]);
      && Forwarding(sha, d, f, tx, changes)
      && (k == |a| ==> Placed(f, tx, changes))
  {
    var records, targets := Records(sha, d.files, tx, changes), Targets(changes);
    var redo := ResolveGroups(sha, e, true, records);
    var a := Flatten(redo);
    ResolveGrouped(sha, e, true, records, targets, tx);
    var f := Run(e, a[..k]);
    assert a[..k] + [] == a[..k];
    FlattenAll(redo, tx);
    hide Run, Flatten, RunCell, CellOf, Completable, ResolveGroups, Records;
    PrefixRun(e, redo, targets, k, [], tx);
    JournalKept(e, a[..k]);
    ElsewhereTransitive(d, e, f, targets, tx);
    forall p | 0 <= p < |changes|
      ensures Completable(sha, d.files, f, tx, changes[p])
      ensures k == |a| ==> CellOf(f, changes[p].target, tx).file == changes[p].payload
    {
      assert targets[p] == changes[p].target;
      RedoPartway(sha, d, e, f, tx, changes, p, k == |a|);
    }
  }

  ghost predicate Placed(e: Disk, tx: nat, changes: seq<Change>) {
    forall p :: 0 <= p < |changes| ==> CellOf(e, changes[p].target, tx).file == changes[p].payload
  }

  lemma RedoPartway(sha: Bytes -> nat, d: Disk, e: Disk, f: Disk, tx: nat, changes: seq<Change>, p: nat, whole: bool)
    requires p < |changes| && Completable(sha, d.files, e, tx, changes[p])
    requires RedoOps(sha, e, RecordOf(sha, d.files, tx, changes[p])).Some?
    requires
      var group := RedoOps(sha, e, RecordOf(sha, d.files, tx, changes[p])).value;
      && Partway(e, f, changes[p].target, tx, group)
      && (whole ==> CellOf(f, changes[p].target, tx) == RunCell(CellOf(e, changes[p].target, tx), group))
    ensures Completable(sha, d.files, f, tx, changes[p])
    ensures whole ==> CellOf(f, changes[p].target, tx).file == changes[p].payload
  {
    var group := RedoOps(sha, e, RecordOf(sha, d.files, tx, changes[p])).value;
    var cell := CellOf(e, changes[p].target, tx);
    RedoneCellIff(sha, d.files, e, tx, changes[p]);
    var m :| 0 <= m <= |group| && CellOf(f, changes[p].target, tx) == RunCell(cell, group[..m]);
    assert |group| <= 1;
    assert group[..m] == if m == 0 then [] else group;
    assert RunCell(cell, []) == cell;
  }

  /** Stopping among the deletions of side files. */
  lemma CleanPrefix(sha: Bytes -> nat, d: Disk, e: Disk, tx: nat, changes: seq<Change>, k: nat)
    requires Distinct(changes) && Forwarding(sha, d, e, tx, changes) && Placed(e, tx, changes)
    requires k <= |Flatten(CleanGroups(Records(sha, d.files, tx, changes)))|
    ensures Forwarding(sha, d, Run(e, Flatten(CleanGroups(Records(sha, d.files, tx, changes)))[..k]), tx, changes)
  {
    var groups, targets := CleanGroups(Records(sha, d.files, tx, changes)), Targets(changes);
    var b := Flatten(groups);
    PhasesGrouped(sha, d.files, tx, changes);
    var f := Run(e, b[..k]);
    assert b[..k] + [] == b[..k];
    hide Run, Flatten, RunCell, CellOf, Completable;
    PrefixRun(e, groups, targets, k, [], tx);
    JournalKept(e, b[..k]);
    ElsewhereTransitive(d, e, f, targets, tx);
    forall p | 0 <= p < |changes| ensures Completable(sha, d.files, f, tx, changes[p]) {
      assert targets[p] == changes[p].target;
      CleanPartway(sha, d, e, f, tx, changes, p);
    }
  }

  lemma CleanPartway(sha: Bytes -> nat, d: Disk, e: Disk, f: Disk, tx: nat, changes: seq<Change>, p: nat)
    requires p < |changes| && Completable(sha, d.files, e, tx, changes[p])
    requires CellOf(e, changes[p].target, tx).file == changes[p].payload
    requires Partway(e, f, changes[p].target, tx, CleanOps(RecordOf(sha, d.files, tx, changes[p])))
    ensures Completable(sha, d.files, f, tx, changes[p])
  {
    var group, cell := CleanOps(RecordOf(sha, d.files, tx, changes[p])), CellOf(e, changes[p].target, tx);
    var m :| 0 <= m <= |group| && CellOf(f, changes[p].target, tx) == RunCell(cell, group[..m]);
    CleanedCell(sha, d.files, tx, changes[p], cell, m);
  }

  /** The disk after recoveries that stop after `stops[0]`, `stops[1]`, ... operations. */
  function Interrupted(sha: Bytes -> nat, e: Disk, stops: seq<nat>): Disk
    decreases |stops|
  {
    if stops == [] then e
    else
      var ops := RecoverOps(sha, e).0;
      Interrupted(sha, Run(e, if stops[0] <= |ops| then ops[..stops[0]] else ops), stops[1..])
  }

  /** Rolling forward may be interrupted any number of times: one more recovery completes the commit. */
  lemma {:induction false} RollForwardIsReentrant(
      sha: Bytes -> nat, d: Disk, e: Disk, tx: nat, changes: seq<Change>, stops: seq<nat>)
    requires Distinct(changes) && FreshTx(d, tx)
    requires Forwarding(sha, d, e, tx, changes) || (e.journal.None? && e.files == Changed(d.files, changes))
    ensures
      var (r, ok) := Recover(sha, Interrupted(sha, e, stops));
      ok && r.journal.None? && r.files == Changed(d.files, changes)
    decreases |stops|
  {
    if stops == [] {
      if e.journal.Some? { RollForward(sha, d, e, tx, changes); } else { assert Recover(sha, e) == (Run(e, []), true); }
    } else {
      var ops := RecoverOps(sha, e).0;
      var part := if stops[0] <= |ops| then ops[..stops[0]] else ops;
      if e.journal.None? {
        assert part == [];
      } else {
        if |part| < |ops| {
          ForwardPrefix(sha, d, e, tx, changes, |part|);
        } else {
          assert part == ops;
          RollForward(sha, d, e, tx, changes);
        }
      }
      RollForwardIsReentrant(sha, d, Run(e, part), tx, changes, stops[1..]);
    }
  }

  // Rolling back is different: each restored target consumes its backup.

  /** The operations of a roll back that consume no backup. */
  predicate KeepsBackups(op: Op) {
    op.RemoveFile? || op.RemoveTemp?
  }

  ghost predicate RollingBack(sha: Bytes -> nat, d: Disk, e: Disk, tx: nat, changes: seq<Change>) {
    && Elsewhere(d, e, Targets(changes), tx)
    && e.journal == Some(Journal(false, Records(sha, d.files, tx, changes)))
    && forall p :: 0 <= p < |changes| ==> Undoable(d.files, e, tx, changes[p])
  }

  /** The operations of that roll back: one for each record, then the cleaning, then the journal goes. */
  lemma RollBackPlan(sha: Bytes -> nat, d: Disk, e: Disk, tx: nat, changes: seq<Change>)
    requires Distinct(changes) && RollingBack(sha, d, e, tx, changes)
    ensures
      var (ops, ok) := RecoverOps(sha, e);
      var clean := Flatten(CleanGroups(Records(sha, d.files, tx, changes)));
      && ok && |ops| == |changes| + |clean| + 1
      && (forall p :: 0 <= p < |changes| ==>
            ops[p] == if File(changes[p].target) in d.files then BackupToFile(changes[p].target, tx)
                else RemoveFile(changes[p].target))
      && ops[|changes|..|ops| - 1] == clean && ops[|ops| - 1] == RemoveJournal
  {
    var records := Records(sha, d.files, tx, changes);
    forall p | 0 <= p < |records|
      ensures ResolveOps(sha, e, false, records[p])
           == Some([if File(changes[p].target) in d.files then BackupToFile(changes[p].target, tx)
               else RemoveFile(changes[p].target)])
    {
      assert Undoable(d.files, e, tx, changes[p]);
      assert CellOf(e, changes[p].target, tx).backup == Get(e.files, Backup(changes[p].target, tx));
    }
    ResolveFlat(sha, e, false, records);
    FlattenSingles(ResolveGroups(sha, e, false, records));
  }

  lemma {:induction false} FlattenSingles(groups: seq<seq<Op>>)
    requires forall i :: 0 <= i < |groups| ==> |groups[i]| == 1
    ensures |Flatten(groups)| == |groups|
    ensures forall i :: 0 <= i < |groups| ==> Flatten(groups)[i] == groups[i][0]
  {
    if groups != [] {
      FlattenSingles(groups[1..]);
      assert forall i :: 0 < i < |groups| ==> groups[i] == groups[1..][i - 1];
    }
  }

  lemma {:induction false} RemovalsKeepRollingBack(
      sha: Bytes -> nat, d: Disk, e: Disk, tx: nat, changes: seq<Change>, ops: seq<Op>)
    requires RollingBack(sha, d, e, tx, changes)
    requires forall i :: 0 <= i < |ops| ==>
        KeepsBackups(ops[i]) && ops[i].target in Targets(changes) && OfTx(ops[i], tx)
    ensures RollingBack(sha, d, Run(e, ops), tx, changes)
    decreases |ops|
  {
    if ops != [] {
      var f := Apply(e, ops[0]);
      forall p | 0 <= p < |changes| ensures Undoable(d.files, f, tx, changes[p]) {
        assert Undoable(d.files, e, tx, changes[p]);
      }
      RemovalsKeepRollingBack(sha, d, f, tx, changes, ops[1..]);
    }
  }

  lemma {:induction false} BackupStaysGone(e: Disk, ops: seq<Op>, t: Target, tx: nat)
    requires Backup(t, tx) !in e.files && forall i :: 0 <= i < |ops| ==> !ops[i].CopyToBackup?
    ensures Backup(t, tx) !in Run(e, ops).files
    decreases |ops|
  {
    if ops != [] { BackupStaysGone(Apply(e, ops[0]), ops[1..], t, tx); }
  }

  lemma UnresolvableRaises(sha: Bytes -> nat, e: Disk, committed: bool, records: seq<Record>, p: nat)
    requires DistinctRecords(records) && p < |records| && ResolveOps(sha, e, committed, records[p]).None?
    ensures !ResolveAll(sha, e, committed, records).1
  {
    ResolveFlat(sha, e, committed, records);
    hide ResolveAll;
  }

  /**
    A roll back that was interrupted after `j` operations can be run again exactly when none of
    the `j` records it had dealt with named a file that existed; it then restores everything.
  */
  lemma RollBackAgainIff(sha: Bytes -> nat, d: Disk, e: Disk, tx: nat, changes: seq<Change>, j: nat)
    requires Distinct(changes) && FreshTx(d, tx) && RollingBack(sha, d, e, tx, changes) && j < |RecoverOps(sha, e).0|
    ensures
      var (r, ok) := Recover(sha, Run(e, RecoverOps(sha, e).0[..j]));
      && (ok <==> forall p :: 0 <= p < j && p < |changes| ==> File(changes[p].target) !in d.files)
      && (ok ==> r.journal.None? && r.files == d.files)
  {
    RollBackPlan(sha, d, e, tx, changes);
    if forall p :: 0 <= p < j && p < |changes| ==> File(changes[p].target) !in d.files {
      RollBackUnconsumed(sha, d, e, tx, changes, j);
    } else {
      var p :| 0 <= p < j && p < |changes| && File(changes[p].target) in d.files;
      RollBackConsumed(sha, d, e, tx, changes, j, p);
    }
  }

  lemma RollBackUnconsumed(sha: Bytes -> nat, d: Disk, e: Disk, tx: nat, changes: seq<Change>, j: nat)
    requires Distinct(changes) && FreshTx(d, tx) && RollingBack(sha, d, e, tx, changes) && j < |RecoverOps(sha, e).0|
    requires forall p :: 0 <= p < j && p < |changes| ==> File(changes[p].target) !in d.files
    ensures
      var (r, ok) := Recover(sha, Run(e, RecoverOps(sha, e).0[..j]));
      ok && r.journal.None? && r.files == d.files
  {
    hide RecoverOps, Flatten;
    RollBackPlan(sha, d, e, tx, changes);
    var ops := RecoverOps(sha, e).0;
    var clean := CleanGroups(Records(sha, d.files, tx, changes));
    forall i | 0 <= i < j ensures KeepsBackups(ops[i]) && ops[i].target in Targets(changes) && OfTx(ops[i], tx) {
      if i < |changes| {
        assert Targets(changes)[i] == changes[i].target;
      } else {
        assert ops[i] == ops[|changes|..|ops| - 1][i - |changes|];
        FlattenOps(clean, ops[i]);
        var p :| 0 <= p < |clean| && ops[i] in clean[p];
        assert Targets(changes)[p] == changes[p].target;
      }
    }
    RemovalsKeepRollingBack(sha, d, e, tx, changes, ops[..j]);
    RollBack(sha, d, Run(e, ops[..j]), tx, changes);
  }

  lemma RollBackConsumed(sha: Bytes -> nat, d: Disk, e: Disk, tx: nat, changes: seq<Change>, j: nat, p: nat)
    requires Distinct(changes) && RollingBack(sha, d, e, tx, changes) && p < j < |RecoverOps(sha, e).0|
    requires p < |changes| && File(changes[p].target) in d.files
    ensures !Recover(sha, Run(e, RecoverOps(sha, e).0[..j])).1
  {
    hide RecoverOps, CleanGroups, RollingBack, Flatten;
    RollBackPlan(sha, d, e, tx, changes);
    RollBackOps(sha, d, e, tx, changes);
    var ops, records := RecoverOps(sha, e).0, Records(sha, d.files, tx, changes);
    var f, m := Run(e, ops[..j]), Run(e, ops[..p]);
    assert ops[..j] == ops[..p] + ([ops[p]] + ops[p + 1..j]);
    RunSplit(e, ops[..p], [ops[p]] + ops[p + 1..j]);
    assert ([ops[p]] + ops[p + 1..j])[1..] == ops[p + 1..j];
    BackupStaysGone(Apply(m, ops[p]), ops[p + 1..j], changes[p].target, tx);
    JournalKept(e, ops[..j]);
    UnresolvableRecover(sha, f, records, p);
  }

  lemma UnresolvableRecover(sha: Bytes -> nat, f: Disk, records: seq<Record>, p: nat)
    requires f.journal == Some(Journal(false, records)) && DistinctRecords(records) && p < |records|
        && UndoOps(f, records[p]).None?
    ensures !Recover(sha, f).1
  {
    UnresolvableRaises(sha, f, false, records, p);
  }

  lemma RollBackOps(sha: Bytes -> nat, d: Disk, e: Disk, tx: nat, changes: seq<Change>)
    requires Distinct(changes) && RollingBack(sha, d, e, tx, changes)
    ensures
      var ops := RecoverOps(sha, e).0;
      forall i :: 0 <= i < |ops| - 1 ==> OnFiles(ops[i]) && !ops[i].CopyToBackup?
    ensures e.journal == Some(Journal(false, Records(sha, d.files, tx, changes)))
  {
    hide RecoverOps, Flatten;
    RollBackPlan(sha, d, e, tx, changes);
    var ops, clean := RecoverOps(sha, e).0, CleanGroups(Records(sha, d.files, tx, changes));
    forall i | 0 <= i < |ops| - 1 ensures OnFiles(ops[i]) && !ops[i].CopyToBackup? {
      if i >= |changes| {
        assert ops[i] == ops[|changes|..|ops| - 1][i - |changes|];
        FlattenOps(clean, ops[i]);
      }
    }
  }

  /** The smallest case: one existing file is rewritten, and the roll back stops after restoring it. */
  lemma RollBackTwiceFails(sha: Bytes -> nat, before: Bytes, after: Bytes)
    ensures
      var index := Target(Project, "index.md");
      var d := Disk(map[File(index) := before], None, None);
      var changes := [Change(index, Some(after))];
      && 4 <= |CommitOps(sha, d, 0, changes)|
      && var e := Run(d, CommitOps(sha, d, 0, changes)[..4]);
         1 <= |RecoverOps(sha, e).0| && !Recover(sha, Run(e, RecoverOps(sha, e).0[..1])).1
  {
    var index := Target(Project, "index.md");
    var d := Disk(map[File(index) := before], None, None);
    var changes := [Change(index, Some(after))];
    var groups := StageGroups(d.files, 0, changes);
    assert groups[0] == [CopyToBackup(index, 0), WriteTemp(index, 0, after)] && |groups| == 1;
    assert Flatten(groups[1..]) == [];
    CrashWhileSwitching(sha, d, 0, changes, 4);
    var e := Run(d, CommitOps(sha, d, 0, changes)[..4]);
    RollBackPlan(sha, d, e, 0, changes);
    RollBackAgainIff(sha, d, e, 0, changes, 1);
    assert File(changes[0].target) in d.files;
  }
}
