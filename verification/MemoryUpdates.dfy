/**
  Applying a memory update and loading the memory again
  (`apply` and `load_indexes` in `src/mewcode/continuity/memory_store.py`).
*/
module MemoryUpdates {
  import opened Wrappers
  import opened MemoryIndex
  import Text

  datatype Mutation =
    | Delete(scope: Scope, id: string)
    | Upsert(scope: Scope, noteId: Option<string>, category: string, summary: string, body: string, priority: int)

  datatype MemoryError =
    | Disabled | TooMany | UnknownNote | Sensitive | SummaryTooLong | BadTime | NoteTooLarge | NoFreshId | CommitFailed

  /** The turn that an update belongs to. */
  datatype Turn = Turn(session: string, at: int)

  // --- Mutations ----------------------------------------------------------------------------

  /** The ids are distinct over both scopes. */
  predicate DistinctNotes(notes: seq<Note>) {
    forall i, j :: 0 <= i < j < |notes| ==> notes[i].id != notes[j].id
  }

  function Find(notes: seq<Note>, id: string): (i: Option<nat>)
    ensures i.Some? ==> i.value < |notes| && notes[i.value].id == id
    ensures i.None? ==> forall k :: 0 <= k < |notes| ==> notes[k].id != id
  {
    if notes == [] then None
    else if notes[0].id == id then Some(0)
    else
      match Find(notes[1..], id)
      case None => None
      case Some(k) => Some(k + 1)
  }

  /** `_new_id`: the first generated id that no note has. */
  function NewId(notes: seq<Note>, tries: seq<string>): (id: Option<string>)
    ensures id.Some? ==> Find(notes, id.value).None?
  {
    if tries == [] then None
    else if Find(notes, tries[0]).None? then Some(tries[0])
    else NewId(notes, tries[1..])
  }

  /** `_apply_mutation`. */
  function ApplyOne(
      y: Layout, m: Limits, notes: seq<Note>, x: Mutation, turn: Turn, tries: seq<string>)
      : Result<seq<Note>, MemoryError> {
    match x
    case Delete(scope, id) =>
      (match Find(notes, id)
       case None => Err(UnknownNote)
       case Some(i) => if notes[i].scope != scope then Err(UnknownNote) else Ok(notes[..i] + notes[i + 1..]))
    case Upsert(scope, noteId, category, summary, body, priority) =>
      var place := if noteId.Some? then Find(notes, noteId.value) else None;
      if noteId.Some? && (place.None? || notes[place.value].scope != scope) then Err(UnknownNote)
      else
        var s, b := Text.Strip(summary), Text.Strip(body);
        if !y.safe(s) || !y.safe(b) then Err(Sensitive)
        else if |s| > m.summary then Err(SummaryTooLong)
        else
          var id := if place.Some? then Some(notes[place.value].id) else NewId(notes, tries);
          if id.None? then Err(NoFreshId)
          else
            var created := if place.Some? then notes[place.value].created else turn.at;
            var note := Note(id.value, scope, category, s, b, priority, created, turn.at, turn.session);
            if turn.at < created then Err(BadTime)
            else if y.noteSize(note) > m.note then Err(NoteTooLarge)
            else Ok(if place.Some? then notes[place.value := note] else notes + [note])
  }

  lemma OneKeepsDistinct(y: Layout, m: Limits, notes: seq<Note>, x: Mutation, turn: Turn, tries: seq<string>)
    requires DistinctNotes(notes) && ApplyOne(y, m, notes, x, turn, tries).Ok?
    ensures DistinctNotes(ApplyOne(y, m, notes, x, turn, tries).value)
  {
    hide Text.Strip, NewId;
  }

  /** The mutations of a plan in order; `tries` holds the generated ids of each. */
  function ApplyAll(y: Layout, m: Limits, notes: seq<Note>, xs: seq<Mutation>, turn: Turn, tries: seq<seq<string>>)
    : Result<seq<Note>, MemoryError>
    requires |tries| == |xs|
    decreases |xs|
  {
    if xs == [] then Ok(notes)
    else
      match ApplyOne(y, m, notes, xs[0], turn, tries[0])
      case Err(e) => Err(e)
      case Ok(next) => ApplyAll(y, m, next, xs[1..], turn, tries[1..])
  }

  lemma {:induction false} AllKeepDistinct(
      y: Layout, m: Limits, notes: seq<Note>, xs: seq<Mutation>, turn: Turn, tries: seq<seq<string>>)
    requires |tries| == |xs| && DistinctNotes(notes) && ApplyAll(y, m, notes, xs, turn, tries).Ok?
    ensures DistinctNotes(ApplyAll(y, m, notes, xs, turn, tries).value)
    decreases |xs|
  {
    hide ApplyOne, DistinctNotes;
    if xs != [] {
      OneKeepsDistinct(y, m, notes, xs[0], turn, tries[0]);
      AllKeepDistinct(y, m, ApplyOne(y, m, notes, xs[0], turn, tries[0]).value, xs[1..], turn, tries[1..]);
    }
  }

  // --- The store ---------------------------------------------------------------------------------

  /** The notes of one scope. */
  function Scoped(notes: seq<Note>, s: Scope): seq<Note> {
    if notes == [] then [] else (if notes[0].scope == s then [notes[0]] else []) + Scoped(notes[1..], s)
  }

  function ScopedEntries(notes: seq<Note>, s: Scope): seq<Entry> {
    Entries(Scoped(notes, s))
  }

  /** The note files of both scopes, both index files, and what the program holds of them. */
  datatype Memory = Memory(notes: seq<Note>, project: string, user: string, catalog: seq<Entry>, view: View)

  /** `load_indexes` over readable note files in the order `files`. */
  function Loaded(y: Layout, m: Limits, files: seq<Note>): Memory {
    var p := EncodeIndex(y, m, Project, ScopedEntries(files, Project));
    var u := EncodeIndex(y, m, User, ScopedEntries(files, User));
    Memory(files, p.text, u.text, p.kept + u.kept, PromptView(y, m, p.kept, u.kept))
  }

  /** The notes that the index keeps; the files of the others are deleted. */
  function Retained(notes: seq<Note>, kept: seq<Entry>): seq<Note> {
    if notes == [] then [] else (if EntryFor(notes[0]) in kept then [notes[0]] else []) + Retained(notes[1..], kept)
  }

  /** `_apply_locked` once the mutations gave `candidate` and the files are committed. */
  function Updated(y: Layout, m: Limits, candidate: seq<Note>): Memory {
    var p := EncodeIndex(y, m, Project, ScopedEntries(candidate, Project));
    var u := EncodeIndex(y, m, User, ScopedEntries(candidate, User));
    var notes := Retained(candidate, p.kept + u.kept);
    var pe, ue := ScopedEntries(notes, Project), ScopedEntries(notes, User);
    Memory(notes, p.text, u.text, Sort(pe) + Sort(ue), PromptView(y, m, pe, ue))
  }

  // --- Notes, rows and catalog agree -------------------------------------------------------------

  lemma {:induction false} ScopedIs(notes: seq<Note>, s: Scope)
    ensures forall n :: n in Scoped(notes, s) <==> n in notes && n.scope == s
    ensures DistinctNotes(notes) ==> DistinctNotes(Scoped(notes, s))
  {
    if notes != [] {
      ScopedIs(notes[1..], s);
      assert notes == [notes[0]] + notes[1..];
      var rest := Scoped(notes[1..], s);
      if DistinctNotes(notes) {
        assert DistinctNotes(notes[1..]) by {
          forall i, j | 0 <= i < j < |notes[1..]|
              ensures notes[1..][i].id != notes[1..][j].id { assert notes[i + 1].id != notes[j + 1].id; }
        }
        forall k | 0 <= k < |rest| ensures rest[k].id != notes[0].id {
          assert rest[k] in notes[1..];
          var q :| 0 <= q < |notes[1..]| && notes[1..][q] == rest[k];
          assert notes[q + 1] == rest[k];
        }
      }
    }
  }

  lemma {:induction false} RetainedIs(notes: seq<Note>, kept: seq<Entry>)
    ensures forall n :: n in Retained(notes, kept) <==> n in notes && EntryFor(n) in kept
    ensures DistinctNotes(notes) ==> DistinctNotes(Retained(notes, kept))
  {
    if notes != [] {
      RetainedIs(notes[1..], kept);
      assert notes == [notes[0]] + notes[1..];
      var rest := Retained(notes[1..], kept);
      if DistinctNotes(notes) {
        assert DistinctNotes(notes[1..]) by {
          forall i, j | 0 <= i < j < |notes[1..]|
              ensures notes[1..][i].id != notes[1..][j].id { assert notes[i + 1].id != notes[j + 1].id; }
        }
        forall k | 0 <= k < |rest| ensures rest[k].id != notes[0].id {
          assert rest[k] in notes[1..];
          var q :| 0 <= q < |notes[1..]| && notes[1..][q] == rest[k];
          assert notes[q + 1] == rest[k];
        }
      }
    }
  }

  /** The entries of a scope are those of its notes, with distinct ids. */
  lemma EntriesAre(notes: seq<Note>, s: Scope)
    requires DistinctNotes(notes)
    ensures Distinct(ScopedEntries(notes, s))
    ensures forall e :: e in ScopedEntries(notes, s) ==>
        e.scope == s && exists n :: n in notes && n.scope == s && EntryFor(n) == e
    ensures forall n :: n in notes && n.scope == s ==> EntryFor(n) in ScopedEntries(notes, s)
  {
    ScopedIs(notes, s);
    var scoped, es := Scoped(notes, s), ScopedEntries(notes, s);
    assert forall i :: 0 <= i < |scoped| ==> es[i] == EntryFor(scoped[i]) && scoped[i] in notes && scoped[i].scope == s;
    forall n | n in notes && n.scope == s ensures EntryFor(n) in es {
      var i :| 0 <= i < |scoped| && scoped[i] == n;
      assert es[i] == EntryFor(n);
    }
    forall e | e in es ensures e.scope == s && exists n :: n in notes && n.scope == s && EntryFor(n) == e {
      var i :| 0 <= i < |es| && es[i] == e;
      assert scoped[i] in notes;
    }
  }

  /** An index keeps some of the entries it is given, in order. */
  lemma KeptIs(y: Layout, m: Limits, s: Scope, es: seq<Entry>)
    requires Distinct(es)
    ensures forall e :: e in EncodeIndex(y, m, s, es).kept ==> e in es
    ensures Ordered(EncodeIndex(y, m, s, es).kept) && Distinct(EncodeIndex(y, m, s, es).kept)
  {
    var kept := EncodeIndex(y, m, s, es).kept;
    SortOrders(es);
    hide Sort, Fits;
    assert kept <= Sort(es);
    OrderedPrefix(Sort(es), |kept|);
    assert kept == Sort(es)[..|kept|];
    KeptDistinct(es, Sort(es), kept);
  }

  lemma KeptDistinct(es: seq<Entry>, sorted: seq<Entry>, kept: seq<Entry>)
    requires Distinct(es) && Ordered(sorted) && (forall x :: x in sorted <==> x in es) && kept <= sorted
    ensures Distinct(kept)
  {
    hide Before;
    OrderedDistinct(sorted);
    forall i, j | 0 <= i < j < |kept| ensures kept[i].id != kept[j].id {
      assert sorted[i] in es && sorted[j] in es && sorted[i] != sorted[j];
      var a :| 0 <= a < |es| && es[a] == sorted[i];
      var b :| 0 <= b < |es| && es[b] == sorted[j];
    }
  }

  /** The retained notes of a scope are those whose entries the index of the scope kept. */
  lemma RetainedEntries(y: Layout, m: Limits, candidate: seq<Note>, s: Scope)
    requires DistinctNotes(candidate)
    ensures
      var p := EncodeIndex(y, m, Project, ScopedEntries(candidate, Project));
      var u := EncodeIndex(y, m, User, ScopedEntries(candidate, User));
      var notes := Retained(candidate, p.kept + u.kept);
      && DistinctNotes(notes)
      && SameEntries(ScopedEntries(notes, s), if s.Project? then p.kept else u.kept)
  {
    var pe, ue := ScopedEntries(candidate, Project), ScopedEntries(candidate, User);
    EntriesAre(candidate, Project);
    EntriesAre(candidate, User);
    KeptIs(y, m, Project, pe);
    KeptIs(y, m, User, ue);
    var p, u := EncodeIndex(y, m, Project, pe), EncodeIndex(y, m, User, ue);
    var notes := Retained(candidate, p.kept + u.kept);
    RetainedIs(candidate, p.kept + u.kept);
    EntriesAre(notes, s);
    hide ScopedEntries, EncodeIndex, Retained, Distinct, Ordered;
    var kept := if s.Project? then p.kept else u.kept;
    forall e ensures e in ScopedEntries(notes, s) <==> e in kept {
      if e in ScopedEntries(notes, s) {
        var n :| n in notes && n.scope == s && EntryFor(n) == e;
        assert e in p.kept + u.kept;
      }
      if e in kept {
        var n :| n in candidate && n.scope == s && EntryFor(n) == e;
        assert e in p.kept + u.kept && n in notes;
      }
    }
  }

  /**
    After an update the note files, the index rows and the catalog of each scope agree: the files
    are those of the entries that the index kept, and the catalog lists them in order.
  */
  lemma UpdateAgrees(y: Layout, m: Limits, candidate: seq<Note>)
    requires DistinctNotes(candidate)
    ensures
      var q := Updated(y, m, candidate);
      var p := EncodeIndex(y, m, Project, ScopedEntries(candidate, Project));
      var u := EncodeIndex(y, m, User, ScopedEntries(candidate, User));
      && DistinctNotes(q.notes) && (forall n :: n in q.notes ==> n in candidate)
      && q.project == p.text && q.user == u.text && q.catalog == p.kept + u.kept
      && SameEntries(ScopedEntries(q.notes, Project), p.kept) && SameEntries(ScopedEntries(q.notes, User), u.kept)
      && q.view == PromptView(y, m, p.kept, u.kept)
  {
    var pe, ue := ScopedEntries(candidate, Project), ScopedEntries(candidate, User);
    EntriesAre(candidate, Project);
    EntriesAre(candidate, User);
    KeptIs(y, m, Project, pe);
    KeptIs(y, m, User, ue);
    var p, u := EncodeIndex(y, m, Project, pe), EncodeIndex(y, m, User, ue);
    RetainedEntries(y, m, candidate, Project);
    RetainedEntries(y, m, candidate, User);
    RetainedIs(candidate, p.kept + u.kept);
    var notes := Retained(candidate, p.kept + u.kept);
    EntriesAre(notes, Project);
    EntriesAre(notes, User);
    SameSorted(ScopedEntries(notes, Project), p.kept);
    SameSorted(ScopedEntries(notes, User), u.kept);
    hide ScopedEntries, EncodeIndex, Retained, Distinct, Ordered, SameEntries, DistinctNotes, Sort, WithScope, Included,
        Fits;
  }

  /** A list with the entries of an ordered one sorts to it. */
  lemma SameSorted(es: seq<Entry>, kept: seq<Entry>)
    requires Distinct(es) && Distinct(kept) && Ordered(kept) && SameEntries(es, kept)
    ensures Sort(es) == kept && Sort(kept) == kept
  {
    SortOrders(es);
    SortOrders(kept);
    OrderIsCanonical(Sort(es), kept);
    OrderIsCanonical(Sort(kept), kept);
  }

  /**
    Main result: loading right after an update, with the files in any order, gives the catalog,
    the indexes and the view that the update left.
  */
  lemma LoadAgreesWithUpdate(y: Layout, m: Limits, candidate: seq<Note>, files: seq<Note>)
    requires DistinctNotes(candidate) && DistinctNotes(files)
    requires forall n :: n in files <==> n in Updated(y, m, candidate).notes
    ensures Loaded(y, m, files) == Updated(y, m, candidate).(notes := files)
  {
    var pe, ue := ScopedEntries(candidate, Project), ScopedEntries(candidate, User);
    var q := Updated(y, m, candidate);
    UpdateAgrees(y, m, candidate);
    EntriesAre(candidate, Project);
    EntriesAre(candidate, User);
    SameNotes(files, q.notes, Project);
    SameNotes(files, q.notes, User);
    hide Updated, ScopedEntries, DistinctNotes, Distinct;
    IndexIsStable(y, m, Project, pe, ScopedEntries(files, Project));
    IndexIsStable(y, m, User, ue, ScopedEntries(files, User));
    hide EncodeIndex, PromptView;
  }

  lemma SameNotes(a: seq<Note>, b: seq<Note>, s: Scope)
    requires DistinctNotes(a) && DistinctNotes(b) && forall n :: n in a <==> n in b
    ensures Distinct(ScopedEntries(a, s)) && SameEntries(ScopedEntries(a, s), ScopedEntries(b, s))
  {
    EntriesAre(a, s);
    EntriesAre(b, s);
    hide ScopedEntries;
  }

  // --- The store as an object -------------------------------------------------------------------------

  /** The files, and the fields that the store keeps of them. */
  class MemoryStore {
    const layout: Layout
    const limits: Limits
    var notes: seq<Note>
    var project: string
    var user: string
    var catalog: seq<Entry>
    var view: View
    var writeEnabled: bool

    constructor (layout: Layout, limits: Limits, files: seq<Note>)
      ensures this.layout == layout && this.limits == limits && writeEnabled
      ensures View() == Memory(files, "", "", [], NO_VIEW)
    {
      this.layout, this.limits, notes := layout, limits, files;
      project, user, catalog, view, writeEnabled := "", "", [], NO_VIEW, true;
    }

    function View(): Memory
      reads this
    {
      Memory(notes, project, user, catalog, view)
    }

    method CollectEntries(from: seq<Note>, s: Scope) returns (es: seq<Entry>)
      ensures es == ScopedEntries(from, s)
    {
      es := [];
      var i := 0;
      assert from[0..] == from;
      while i < |from|
        invariant 0 <= i <= |from|
        invariant es + Entries(Scoped(from[i..], s)) == Entries(Scoped(from, s))
      {
        hide *;
        var n := from[i];
        CollectStep(from, i, s, es);
        if n.scope == s {
          es := es + [EntryFor(n)];
        }
        i := i + 1;
      }
    }

    /** `load_indexes`: a failure keeps what was held and disables updates. */
    method LoadIndexes(files: seq<Note>, works: bool)
      modifies this
      ensures writeEnabled == works
      ensures works ==> View() == Loaded(layout, limits, files)
      ensures !works ==> View() == old(View())
    {
      hide EncodeIndex, PromptView, ScopedEntries;
      writeEnabled := works;
      if !works {
        return;
      }
      var pe := CollectEntries(files, Project);
      var ue := CollectEntries(files, User);
      var p := WriteIndex(layout, limits, Project, pe);
      var u := WriteIndex(layout, limits, User, ue);
      notes, project, user := files, p.text, u.text;
      catalog := p.kept + u.kept;
      view := BuildPromptView(layout, limits, p.kept, u.kept);
    }

    method Mutate(xs: seq<Mutation>, turn: Turn, tries: seq<seq<string>>) returns (r: Result<seq<Note>, MemoryError>)
      requires |tries| == |xs|
      ensures r == ApplyAll(layout, limits, notes, xs, turn, tries)
    {
      hide ApplyOne;
      var candidate, i := notes, 0;
      assert xs[0..] == xs && tries[0..] == tries;
      while i < |xs|
        invariant 0 <= i <= |xs|
        invariant ApplyAll(layout, limits, candidate, xs[i..], turn, tries[i..])
            == ApplyAll(layout, limits, notes, xs, turn, tries)
      {
        assert xs[i..][0] == xs[i] && xs[i..][1..] == xs[i + 1..] && tries[i..][0] == tries[i]
            && tries[i..][1..] == tries[i + 1..];
        var next := ApplyOne(layout, limits, candidate, xs[i], turn, tries[i]);
        if next.Err? {
          return Err(next.error);
        }
        candidate := next.value;
        i := i + 1;
      }
      return Ok(candidate);
    }

    /** `apply`: all of the plan takes effect or nothing does. */
    method ApplyPlan(
        xs: seq<Mutation>, turn: Turn, tries: seq<seq<string>>, committed: bool) returns (error: Option<MemoryError>)
      requires |tries| == |xs|
      modifies this
      ensures writeEnabled == old(writeEnabled)
      ensures error.Some? ==> View() == old(View())
      ensures
        var candidate := ApplyAll(layout, limits, old(notes), xs, turn, tries);
        && (error.None? <==> old(writeEnabled) && |xs| <= limits.mutations && candidate.Ok? && committed)
        && (error.None? ==> View() == Updated(layout, limits, candidate.value))
    {
      hide EncodeIndex, PromptView, ScopedEntries, ApplyAll, Sort, Retained;
      if !writeEnabled {
        return Some(Disabled);
      }
      if |xs| > limits.mutations {
        return Some(TooMany);
      }
      var candidate := Mutate(xs, turn, tries);
      if candidate.Err? {
        return Some(candidate.error);
      }
      var pe := CollectEntries(candidate.value, Project);
      var ue := CollectEntries(candidate.value, User);
      var p := WriteIndex(layout, limits, Project, pe);
      var u := WriteIndex(layout, limits, User, ue);
      if !committed {
        return Some(CommitFailed);
      }
      notes, project, user := Retained(candidate.value, p.kept + u.kept), p.text, u.text;
      var keptProject := CollectEntries(notes, Project);
      var keptUser := CollectEntries(notes, User);
      var sortedProject := SortEntries(keptProject);
      var sortedUser := SortEntries(keptUser);
      catalog := sortedProject + sortedUser;
      view := BuildPromptView(layout, limits, keptProject, keptUser);
      return None;
    }
  }

  /** One turn of the loop over the notes. */
  lemma CollectStep(from: seq<Note>, i: nat, s: Scope, es: seq<Entry>)
    requires i < |from|
    ensures
      es + Entries(Scoped(from[i..], s))
      == (if from[i].scope == s then es + [EntryFor(from[i])] else es) + Entries(Scoped(from[i + 1..], s))
  {
    var n, rest := from[i], Scoped(from[i + 1..], s);
    assert from[i..][0] == n && from[i..][1..] == from[i + 1..];
    assert Scoped(from[i..], s) == if n.scope == s then [n] + rest else rest;
    hide *;
    EntriesFirst(n, rest);
  }

  lemma EntriesFirst(n: Note, rest: seq<Note>)
    ensures Entries([n] + rest) == [EntryFor(n)] + Entries(rest)
  {
  }
}
