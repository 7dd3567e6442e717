/**
  What the mutations of a memory update do to the notes (`_apply_mutation` in
  `src/mewcode/continuity/memory_store.py`).
*/
module MemoryMutations {
  import opened Wrappers
  import opened MemoryIndex
  import opened MemoryUpdates
  import Text

  // --- Notes by id ---------------------------------------------------------------------------

  function Lookup(notes: seq<Note>, id: string): Option<Note> {
    if notes == [] then None else if notes[0].id == id then Some(notes[0]) else Lookup(notes[1..], id)
  }

  /** The notes with another id, in order. */
  function Others(notes: seq<Note>, id: string): seq<Note> {
    if notes == [] then [] else (if notes[0].id == id then [] else [notes[0]]) + Others(notes[1..], id)
  }

  lemma {:induction false} LookupIs(notes: seq<Note>, id: string)
    ensures Lookup(notes, id).Some? ==> Lookup(notes, id).value in notes && Lookup(notes, id).value.id == id
    ensures Lookup(notes, id).None? <==> forall n :: n in notes ==> n.id != id
    ensures Lookup(notes, id).None? ==> Others(notes, id) == notes
  {
    if notes != [] {
      LookupIs(notes[1..], id);
      assert notes == [notes[0]] + notes[1..];
    }
  }

  /** In a list with distinct ids, at the place of an id and around it. */
  lemma {:induction false} AtPlace(notes: seq<Note>, i: nat, id: string)
    requires DistinctNotes(notes) && i < |notes| && notes[i].id == id
    ensures Lookup(notes, id) == Some(notes[i]) && Others(notes, id) == notes[..i] + notes[i + 1..]
  {
    TailIsDistinct(notes);
    if i > 0 {
      AtPlace(notes[1..], i - 1, id);
      assert notes[..i] == [notes[0]] + notes[1..][..i - 1] && notes[1..][i..] == notes[i + 1..];
    } else {
      LookupIs(notes[1..], id);
      forall n | n in notes[1..] ensures n.id != id {
        var j :| 0 <= j < |notes[1..]| && notes[1..][j] == n;
        assert notes[j + 1] == n;
      }
      assert notes[..0] == [];
    }
  }

  lemma TailIsDistinct(notes: seq<Note>)
    requires DistinctNotes(notes) && notes != []
    ensures DistinctNotes(notes[1..])
  {
    forall i, j | 0 <= i < j < |notes[1..]| ensures notes[1..][i].id != notes[1..][j].id {
      assert notes[i + 1].id != notes[j + 1].id;
    }
  }

  lemma {:induction false} OtherIds(notes: seq<Note>, id: string, other: string)
    requires other != id
    ensures Lookup(Others(notes, id), other) == Lookup(notes, other)
  {
    if notes != [] {
      OtherIds(notes[1..], id, other);
      var rest := Others(notes[1..], id);
      assert [] + rest == rest && ([notes[0]] + rest)[1..] == rest;
    }
  }

  lemma {:induction false} AtEnd(notes: seq<Note>, note: Note)
    requires Lookup(notes, note.id).None?
    ensures Lookup(notes + [note], note.id) == Some(note) && Others(notes + [note], note.id) == notes
  {
    if notes == [] {
      assert notes + [note] == [note] && [note][1..] == [];
    } else {
      assert (notes + [note])[1..] == notes[1..] + [note];
      AtEnd(notes[1..], note);
      assert notes == [notes[0]] + notes[1..];
    }
  }

  lemma FindIs(notes: seq<Note>, id: string)
    requires DistinctNotes(notes)
    ensures
      var place := Find(notes, id);
      && (place.Some? <==> Lookup(notes, id).Some?)
      && (place.Some? ==>
            Lookup(notes, id) == Some(notes[place.value])
            && Others(notes, id) == notes[..place.value] + notes[place.value + 1..])
  {
    var place := Find(notes, id);
    if place.Some? { AtPlace(notes, place.value, id); } else { LookupIs(notes, id); }
  }

  // --- Deleting ---------------------------------------------------------------------------------

  /**
    A deletion works exactly on a note of that id and scope; it takes this note away and leaves the others in
    order.
  */
  lemma DeleteMeans(y: Layout, m: Limits, notes: seq<Note>, scope: Scope, id: string, turn: Turn, tries: seq<string>)
    requires DistinctNotes(notes)
    ensures
      var (r, old_) := (ApplyOne(y, m, notes, Delete(scope, id), turn, tries), Lookup(notes, id));
      && (r.Ok? <==> old_.Some? && old_.value.scope == scope)
      && (r.Ok? ==> r.value == Others(notes, id) && Lookup(r.value, id).None?)
      && (r.Err? ==> r.error == UnknownNote)
  {
    FindIs(notes, id);
    hide DistinctNotes, Find, Lookup;
    NoneLeft(notes, id);
  }

  lemma {:induction false} NoneLeft(notes: seq<Note>, id: string)
    ensures Lookup(Others(notes, id), id).None?
  {
    if notes != [] {
      NoneLeft(notes[1..], id);
      var rest := Others(notes[1..], id);
      assert [] + rest == rest && ([notes[0]] + rest)[1..] == rest;
    }
  }

  // --- Writing ----------------------------------------------------------------------------------

  /**
    The note that an upsert writes: what the mutation says, stripped, in this turn; an older note keeps its
    time of creation.
  */
  function Written(x: Mutation, id: string, old_: Option<Note>, turn: Turn): Note
    requires x.Upsert?
  {
    Note(id, x.scope, x.category, Text.Strip(x.summary), Text.Strip(x.body), x.priority,
         if old_.Some? then old_.value.created else turn.at, turn.at, turn.session)
  }

  /** The texts may be written. */
  predicate GoodTexts(y: Layout, m: Limits, x: Mutation)
    requires x.Upsert?
  {
    y.safe(Text.Strip(x.summary)) && y.safe(Text.Strip(x.body)) && |Text.Strip(x.summary)| <= m.summary
  }

  /**
    An upsert of a known id works exactly when a note of that id and scope exists, its texts may be written,
    the turn is not older than the note and the note is not too large; it replaces that note in its place.
  */
  lemma RewriteMeans(y: Layout, m: Limits, notes: seq<Note>, x: Mutation, id: string, turn: Turn, tries: seq<string>)
    requires DistinctNotes(notes) && x.Upsert? && x.noteId == Some(id)
    ensures
      var (r, old_) := (ApplyOne(y, m, notes, x, turn, tries), Lookup(notes, id));
      && (r.Ok? <==>
            && old_.Some? && old_.value.scope == x.scope && GoodTexts(y, m, x)
            && old_.value.created <= turn.at && y.noteSize(Written(x, id, old_, turn)) <= m.note)
      && (r.Ok? ==>
            && Lookup(r.value, id) == Some(Written(x, id, old_, turn)) && Others(r.value, id) == Others(notes, id)
            && |r.value| == |notes| && forall i :: 0 <= i < |notes| ==> r.value[i].id == notes[i].id)
  {
    FindIs(notes, id);
    var r, place := ApplyOne(y, m, notes, x, turn, tries), Find(notes, id);
    hide Find, Lookup, Others, Text.Strip;
    if r.Ok? {
      var i := place.value;
      assert DistinctNotes(r.value);
      AtPlace(r.value, i, id);
      assert r.value[..i] == notes[..i] && r.value[i + 1..] == notes[i + 1..];
    }
  }

  /**
    An upsert without id works exactly when its texts may be written, some generated id is free and the note
    is not too large; it adds one note at the end under the first such id.
  */
  lemma CreateMeans(y: Layout, m: Limits, notes: seq<Note>, x: Mutation, turn: Turn, tries: seq<string>)
    requires DistinctNotes(notes) && x.Upsert? && x.noteId.None?
    ensures
      var (r, id) := (ApplyOne(y, m, notes, x, turn, tries), NewId(notes, tries));
      && (id.Some? <==> exists k :: 0 <= k < |tries| && Lookup(notes, tries[k]).None?)
      && (id.Some? ==> Lookup(notes, id.value).None? && id.value in tries)
      && (r.Ok? <==> GoodTexts(y, m, x) && id.Some? && y.noteSize(Written(x, id.value, None, turn)) <= m.note)
      && (r.Ok? ==>
            && r.value == notes + [Written(x, id.value, None, turn)]
            && Lookup(r.value, id.value) == Some(Written(x, id.value, None, turn))
            && Others(r.value, id.value) == notes)
  {
    FirstFree(notes, tries);
    var id := NewId(notes, tries);
    hide NewId, Lookup, Others, Text.Strip;
    if id.Some? { AtEnd(notes, Written(x, id.value, None, turn)); }
  }

  /** The generated id is the first one that no note has. */
  lemma {:induction false} FirstFree(notes: seq<Note>, tries: seq<string>)
    requires DistinctNotes(notes)
    ensures
      var id := NewId(notes, tries);
      && (id.Some? <==> exists k :: 0 <= k < |tries| && Lookup(notes, tries[k]).None?)
      && (id.Some? ==> Lookup(notes, id.value).None? && id.value in tries)
      && (id.Some? ==> exists k :: 0 <= k < |tries| && tries[k] == id.value
                                && forall j :: 0 <= j < k ==> Lookup(notes, tries[j]).Some?)
  {
    if tries != [] {
      FindIs(notes, tries[0]);
      hide Find, Lookup, DistinctNotes;
      FirstFree(notes, tries[1..]);
      assert tries == [tries[0]] + tries[1..];
      if Lookup(notes, tries[0]).Some? {
        var id := NewId(notes, tries[1..]);
        if id.Some? {
          var k :| 0 <= k < |tries[1..]| && tries[1..][k] == id.value
                   && forall j :: 0 <= j < k ==> Lookup(notes, tries[1..][j]).Some?;
          assert tries[k + 1] == id.value;
          assert forall j :: 0 < j < k + 1 ==> tries[j] == tries[1..][j - 1];
        }
        if k :| 0 <= k < |tries| && Lookup(notes, tries[k]).None? { assert tries[1..][k - 1] == tries[k]; }
      } else {
        assert NewId(notes, tries) == Some(tries[0]);
      }
    }
  }

  // --- Plans ------------------------------------------------------------------------------------

  /** The id that a mutation is about, a generated one for a new note. */
  function Concerns(notes: seq<Note>, x: Mutation, tries: seq<string>): Option<string> {
    match x
    case Delete(_, id) => Some(id)
    case Upsert(_, noteId, _, _, _, _) => if noteId.Some? then noteId else NewId(notes, tries)
  }

  /** A mutation that worked: what is now known under the id it is about, and nothing else changed. */
  lemma OneMeans(y: Layout, m: Limits, notes: seq<Note>, x: Mutation, turn: Turn, tries: seq<string>)
    requires DistinctNotes(notes) && ApplyOne(y, m, notes, x, turn, tries).Ok?
    ensures Concerns(notes, x, tries).Some?
    ensures
      var (after, id) := (ApplyOne(y, m, notes, x, turn, tries).value, Concerns(notes, x, tries).value);
      && DistinctNotes(after)
      && Lookup(after, id) == (if x.Delete? then None else Some(Written(x, id, Lookup(notes, id), turn)))
      && forall other :: other != id ==> Lookup(after, other) == Lookup(notes, other)
  {
    OneKeepsDistinct(y, m, notes, x, turn, tries);
    match x {
      case Delete(scope, id) => DeleteMeans(y, m, notes, scope, id, turn, tries);
      case Upsert(_, Some(id), _, _, _, _) => RewriteMeans(y, m, notes, x, id, turn, tries);
      case Upsert(_, None, _, _, _, _) => CreateMeans(y, m, notes, x, turn, tries);
    }
    hide ApplyOne, Lookup, Others, Written, DistinctNotes, GoodTexts, NewId;
    var after, id := ApplyOne(y, m, notes, x, turn, tries).value, Concerns(notes, x, tries).value;
    LookupIs(notes, id);
    forall other | other != id ensures Lookup(after, other) == Lookup(notes, other) {
      OtherIds(notes, id, other);
      OtherIds(after, id, other);
    }
  }

  /** The notes after the first `k` mutations of a plan that works. */
  function After(
      y: Layout, m: Limits, notes: seq<Note>, xs: seq<Mutation>, turn: Turn, tries: seq<seq<string>>, k: nat): seq<Note>
    requires k <= |xs| == |tries|
    decreases k
  {
    if k == 0 then notes
    else
      var before := After(y, m, notes, xs, turn, tries, k - 1);
      var r := ApplyOne(y, m, before, xs[k - 1], turn, tries[k - 1]);
      if r.Ok? then r.value else before
  }

  lemma {:induction false} AfterTail(
      y: Layout, m: Limits, notes: seq<Note>, xs: seq<Mutation>, turn: Turn, tries: seq<seq<string>>, k: nat)
    requires 0 < k <= |xs| == |tries| && ApplyOne(y, m, notes, xs[0], turn, tries[0]).Ok?
    ensures After(y, m, notes, xs, turn, tries, k)
         == After(y, m, ApplyOne(y, m, notes, xs[0], turn, tries[0]).value, xs[1..], turn, tries[1..], k - 1)
    decreases k
  {
    hide ApplyOne;
    if k > 1 {
      AfterTail(y, m, notes, xs, turn, tries, k - 1);
      assert xs[1..][k - 2] == xs[k - 1] && tries[1..][k - 2] == tries[k - 1];
    } else {
      assert After(y, m, notes, xs, turn, tries, 0) == notes;
    }
  }

  /** A plan works exactly when each of its mutations does, and then leaves the notes after the last one. */
  lemma {:induction false} PlanWorksIff(
      y: Layout, m: Limits, notes: seq<Note>, xs: seq<Mutation>, turn: Turn, tries: seq<seq<string>>)
    requires |tries| == |xs|
    ensures ApplyAll(y, m, notes, xs, turn, tries).Ok?
       <==> forall k :: 0 <= k < |xs| ==>
              ApplyOne(y, m, After(y, m, notes, xs, turn, tries, k), xs[k], turn, tries[k]).Ok?
    ensures ApplyAll(y, m, notes, xs, turn, tries).Ok? ==>
      ApplyAll(y, m, notes, xs, turn, tries).value == After(y, m, notes, xs, turn, tries, |xs|)
    decreases |xs|
  {
    hide ApplyOne;
    if xs != [] {
      var first := ApplyOne(y, m, notes, xs[0], turn, tries[0]);
      assert After(y, m, notes, xs, turn, tries, 0) == notes;
      if first.Ok? {
        PlanWorksIff(y, m, first.value, xs[1..], turn, tries[1..]);
        forall k | 0 < k <= |xs|
          ensures After(y, m, notes, xs, turn, tries, k) == After(y, m, first.value, xs[1..], turn, tries[1..], k - 1)
        {
          AfterTail(y, m, notes, xs, turn, tries, k);
        }
        hide After, ApplyAll;
        assert forall k :: 0 < k < |xs| ==> xs[1..][k - 1] == xs[k] && tries[1..][k - 1] == tries[k];
        assert forall k :: 0 <= k < |xs[1..]| ==> xs[1..][k] == xs[k + 1] && tries[1..][k] == tries[k + 1];
      }
    }
  }

  /** Mutation `k` of the plan is about `id`. */
  predicate About(
      y: Layout, m: Limits, notes: seq<Note>, xs: seq<Mutation>, turn: Turn, tries: seq<seq<string>>, k: nat,
      id: string)
    requires k < |xs| == |tries|
  {
    Concerns(After(y, m, notes, xs, turn, tries, k), xs[k], tries[k]) == Some(id)
  }

  /** Mutations from `k` on that are not about `id` leave what is known under it. */
  lemma {:induction false} UntouchedStays(
      y: Layout, m: Limits, notes: seq<Note>, xs: seq<Mutation>, turn: Turn, tries: seq<seq<string>>, k: nat, n: nat,
      id: string)
    requires k <= n <= |xs| == |tries| && DistinctNotes(notes)
    requires forall j :: k <= j < n ==> !About(y, m, notes, xs, turn, tries, j, id)
    ensures DistinctNotes(After(y, m, notes, xs, turn, tries, n))
    ensures Lookup(After(y, m, notes, xs, turn, tries, n), id) == Lookup(After(y, m, notes, xs, turn, tries, k), id)
    decreases n
  {
    AfterDistinct(y, m, notes, xs, turn, tries, n);
    if k < n {
      UntouchedStays(y, m, notes, xs, turn, tries, k, n - 1, id);
      var before := After(y, m, notes, xs, turn, tries, n - 1);
      assert !About(y, m, notes, xs, turn, tries, n - 1, id);
      hide ApplyOne, Lookup, DistinctNotes;
      if ApplyOne(y, m, before, xs[n - 1], turn, tries[n - 1]).Ok? {
        OneMeans(y, m, before, xs[n - 1], turn, tries[n - 1]);
      }
    }
  }

  lemma {:induction false} AfterDistinct(
      y: Layout, m: Limits, notes: seq<Note>, xs: seq<Mutation>, turn: Turn, tries: seq<seq<string>>, n: nat)
    requires n <= |xs| == |tries| && DistinctNotes(notes)
    ensures DistinctNotes(After(y, m, notes, xs, turn, tries, n))
    decreases n
  {
    if n > 0 {
      AfterDistinct(y, m, notes, xs, turn, tries, n - 1);
      var before := After(y, m, notes, xs, turn, tries, n - 1);
      hide ApplyOne, DistinctNotes;
      if ApplyOne(y, m, before, xs[n - 1], turn, tries[n - 1]).Ok? {
        OneKeepsDistinct(y, m, before, xs[n - 1], turn, tries[n - 1]);
      }
    }
  }

  /**
    In a plan that works the last mutation about an id decides: after a deletion no note has it, after an upsert
    one note has it, as that upsert wrote it. An id that no mutation is about keeps its note.
  */
  lemma LastMutationDecides(
      y: Layout, m: Limits, notes: seq<Note>, xs: seq<Mutation>, turn: Turn, tries: seq<seq<string>>, id: string)
    requires |tries| == |xs| && DistinctNotes(notes) && ApplyAll(y, m, notes, xs, turn, tries).Ok?
    ensures
      var result := ApplyAll(y, m, notes, xs, turn, tries).value;
      && ((forall k :: 0 <= k < |xs| ==> !About(y, m, notes, xs, turn, tries, k, id)) ==>
            Lookup(result, id) == Lookup(notes, id))
      && (forall k :: 0 <= k < |xs| && About(y, m, notes, xs, turn, tries, k, id)
                      && (forall j :: k < j < |xs| ==> !About(y, m, notes, xs, turn, tries, j, id)) ==>
            var before := Lookup(After(y, m, notes, xs, turn, tries, k), id);
            Lookup(result, id) == if xs[k].Delete? then None else Some(Written(xs[k], id, before, turn)))
  {
    PlanWorksIff(y, m, notes, xs, turn, tries);
    if forall k :: 0 <= k < |xs| ==> !About(y, m, notes, xs, turn, tries, k, id) {
      UntouchedStays(y, m, notes, xs, turn, tries, 0, |xs|, id);
    }
    forall k | 0 <= k < |xs| && About(y, m, notes, xs, turn, tries, k, id)
               && (forall j :: k < j < |xs| ==> !About(y, m, notes, xs, turn, tries, j, id))
      ensures
        var before := Lookup(After(y, m, notes, xs, turn, tries, k), id);
        Lookup(After(y, m, notes, xs, turn, tries, |xs|), id)
        == if xs[k].Delete? then None else Some(Written(xs[k], id, before, turn))
    {
      AfterDistinct(y, m, notes, xs, turn, tries, k);
      hide ApplyOne, Lookup, DistinctNotes, ApplyAll, Written;
      OneMeans(y, m, After(y, m, notes, xs, turn, tries, k), xs[k], turn, tries[k]);
      UntouchedStays(y, m, notes, xs, turn, tries, k + 1, |xs|, id);
    }
    hide ApplyAll, Lookup;
    assert After(y, m, notes, xs, turn, tries, 0) == notes;
  }
}
