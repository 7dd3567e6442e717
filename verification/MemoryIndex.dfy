/**
  The index of the memory notes and the view of it in prompts: order, limits, and how far an
  update agrees with a later load (`src/mewcode/continuity/memory_store.py`).
*/
module MemoryIndex {
  import opened Utf8
  import Text

  datatype Scope = Project | User

  datatype Note = Note(
    id: string, scope: Scope, category: string, summary: string, body: string, priority: int,
    created: int, updated: int, session: string)

  datatype Entry = Entry(id: string, scope: Scope, category: string, summary: string, priority: int, updated: int)

  datatype Limits = Limits(lines: nat, bytes: nat, summary: nat, note: nat, mutations: nat)

  /**
    The text of an index row, the number of lines of a text, the size of a written note and the
    check for sensitive content stay opaque.
  */
  datatype Layout = Layout(row: Entry -> string, lines: string -> nat, noteSize: Note -> nat, safe: string -> bool)

  /** A text has at least as many lines as its beginning. */
  ghost predicate LayoutOk(y: Layout) {
    forall a: string, b: string :: y.lines(a) <= y.lines(a + b)
  }

  /** `entry_for`. */
  function EntryFor(n: Note): Entry {
    Entry(n.id, n.scope, n.category, n.summary, n.priority, n.updated)
  }

  function Entries(notes: seq<Note>): (es: seq<Entry>)
    ensures |es| == |notes|
  {
    seq(|notes|, i requires 0 <= i < |notes| => EntryFor(notes[i]))
  }

  // --- Order ------------------------------------------------------------------------------

  /** The order of Python strings. */
  predicate TextLess(a: string, b: string) {
    b != "" && (a == "" || a[0] < b[0] || (a[0] == b[0] && TextLess(a[1..], b[1..])))
  }

  lemma {:induction false} TextTotal(a: string, b: string)
    ensures TextLess(a, b) || TextLess(b, a) || a == b
    ensures !(TextLess(a, b) && TextLess(b, a)) && !TextLess(a, a)
  {
    if a != "" && b != "" {
      TextTotal(a[1..], b[1..]);
      assert a == [a[0]] + a[1..] && b == [b[0]] + b[1..];
      TextIrreflexive(a);
    } else if a != "" {
      TextIrreflexive(a);
    }
  }

  lemma {:induction false} TextIrreflexive(a: string)
    ensures !TextLess(a, a)
  {
    if a != "" { TextIrreflexive(a[1..]); }
  }

  lemma {:induction false} TextTransitive(a: string, b: string, c: string)
    requires TextLess(a, b) && TextLess(b, c)
    ensures TextLess(a, c)
  {
    if a != "" && a[0] == b[0] && b[0] == c[0] { TextTransitive(a[1..], b[1..], c[1..]); }
  }

  /** By priority, then newest first, then by id. */
  predicate Before(a: Entry, b: Entry) {
    || a.priority < b.priority
    || (a.priority == b.priority && a.updated > b.updated)
    || (a.priority == b.priority && a.updated == b.updated && TextLess(a.id, b.id))
  }

  lemma BeforeIsOrder(a: Entry, b: Entry, c: Entry)
    ensures Before(a, b) && Before(b, c) ==> Before(a, c)
    ensures a.id != b.id ==> Before(a, b) || Before(b, a)
    ensures !(Before(a, b) && Before(b, a))
  {
    TextTotal(a.id, b.id);
    if TextLess(a.id, b.id) && TextLess(b.id, c.id) { TextTransitive(a.id, b.id, c.id); }
    hide TextLess;
  }

  predicate Distinct(es: seq<Entry>) {
    forall i, j :: 0 <= i < j < |es| ==> es[i].id != es[j].id
  }

  predicate Ordered(es: seq<Entry>) {
    forall i, j :: 0 <= i < j < |es| ==> Before(es[i], es[j])
  }

  function Insert(e: Entry, es: seq<Entry>): (r: seq<Entry>)
    ensures |r| == |es| + 1
  {
    if es == [] || !Before(es[0], e) then [e] + es else [es[0]] + Insert(e, es[1..])
  }

  /** `sort_entries`. */
  function Sort(es: seq<Entry>): (r: seq<Entry>)
    ensures |r| == |es|
  {
    if es == [] then [] else Insert(es[0], Sort(es[1..]))
  }

  lemma {:induction false} InsertOrdered(e: Entry, es: seq<Entry>)
    requires Ordered(es) && forall x :: x in es ==> x.id != e.id
    ensures Ordered(Insert(e, es)) && forall x :: x in Insert(e, es) <==> x == e || x in es
  {
    hide Before;
    if es == [] {
    } else if !Before(es[0], e) {
      BeforeIsOrder(e, es[0], e);
      forall i | 0 <= i < |es| ensures Before(e, es[i]) {
        BeforeIsOrder(e, es[0], es[i]);
      }
    } else {
      var tail := Insert(e, es[1..]);
      assert es == [es[0]] + es[1..];
      InsertOrdered(e, es[1..]);
      forall k | 0 <= k < |tail| ensures Before(es[0], tail[k]) {
        assert tail[k] in tail;
        if tail[k] != e {
          var q :| 0 <= q < |es[1..]| && es[1..][q] == tail[k];
          assert es[q + 1] == tail[k];
        }
      }
    }
  }

  lemma {:induction false} SortOrders(es: seq<Entry>)
    requires Distinct(es)
    ensures Ordered(Sort(es)) && forall x :: x in Sort(es) <==> x in es
  {
    if es != [] {
      SortOrders(es[1..]);
      assert es == [es[0]] + es[1..];
      forall x | x in Sort(es[1..]) ensures x.id != es[0].id {
        var q :| 0 <= q < |es[1..]| && es[1..][q] == x;
        assert es[q + 1] == x;
      }
      InsertOrdered(es[0], Sort(es[1..]));
    }
  }

  /** Text `a` comes first: at the first place where the two differ it has ended or is smaller. */
  ghost predicate Smaller(a: string, b: string) {
    exists k :: 0 <= k <= |a| && SmallerAt(a, b, k)
  }

  ghost predicate SmallerAt(a: string, b: string, k: nat)
    requires k <= |a|
  {
    k < |b| && a[..k] == b[..k] && (k < |a| ==> a[k] < b[k])
  }

  lemma {:induction false} TextLessMeans(a: string, b: string)
    ensures TextLess(a, b) <==> Smaller(a, b)
  {
    if a == "" || b == "" || a[0] != b[0] {
      if TextLess(a, b) { assert SmallerAt(a, b, 0); }
      if k: nat :| k <= |a| && SmallerAt(a, b, k) {
        if k > 0 { assert false; }
      }
    } else {
      TextLessMeans(a[1..], b[1..]);
      if k: nat :| k <= |a[1..]| && SmallerAt(a[1..], b[1..], k) {
        assert a[..k + 1] == [a[0]] + a[1..][..k] && b[..k + 1] == [b[0]] + b[1..][..k];
        assert SmallerAt(a, b, k + 1);
      }
      if k: nat :| k <= |a| && SmallerAt(a, b, k) {
        assert a[1..][..k - 1] == a[..k][1..] && b[1..][..k - 1] == b[..k][1..];
        assert SmallerAt(a[1..], b[1..], k - 1);
      }
    }
  }

  /** Of two entries the one with the smaller priority comes first, then the newer, then the smaller id. */
  lemma SortedByPriority(es: seq<Entry>, i: nat, j: nat)
    requires Distinct(es) && i < j < |es|
    ensures
      var a, b := Sort(es)[i], Sort(es)[j];
      && a.priority <= b.priority
      && (a.priority == b.priority ==> a.updated >= b.updated)
      && (a.priority == b.priority && a.updated == b.updated ==> Smaller(a.id, b.id))
  {
    hide Sort, TextLess, Smaller;
    SortOrders(es);
    TextLessMeans(Sort(es)[i].id, Sort(es)[j].id);
  }

  lemma OrderedDistinct(es: seq<Entry>)
    requires Ordered(es)
    ensures forall i, j :: 0 <= i < j < |es| ==> es[i] != es[j]
  {
    forall i, j | 0 <= i < j < |es| ensures es[i] != es[j] {
      BeforeIsOrder(es[i], es[j], es[i]);
    }
  }

  /** Ordered lists of the same entries are equal: the order of the files does not matter. */
  lemma {:induction false} OrderIsCanonical(a: seq<Entry>, b: seq<Entry>)
    requires Ordered(a) && Ordered(b) && forall x :: x in a <==> x in b
    ensures a == b
  {
    hide Before;
    assert (b != [] ==> b[0] in b) && (a != [] ==> a[0] in a);
    if a != [] && b != [] {
      FirstsAgree(a, b);
      OrderedDistinct(a);
      OrderedDistinct(b);
      assert a == [a[0]] + a[1..] && b == [b[0]] + b[1..];
      forall x ensures x in a[1..] <==> x in b[1..] {
        assert x in a[1..] <==> x in a && x != a[0];
        assert x in b[1..] <==> x in b && x != b[0];
      }
      OrderIsCanonical(a[1..], b[1..]);
    }
  }

  lemma FirstsAgree(a: seq<Entry>, b: seq<Entry>)
    requires a != [] && b != [] && Ordered(a) && Ordered(b) && forall x :: x in a <==> x in b
    ensures a[0] == b[0]
  {
    hide Before;
    assert a[0] in b && b[0] in a;
    var i :| 0 <= i < |b| && b[i] == a[0];
    var j :| 0 <= j < |a| && a[j] == b[0];
    BeforeIsOrder(a[0], b[0], a[0]);
  }

  // --- The index -----------------------------------------------------------------------------

  function ScopeName(s: Scope): string {
    if s.Project? then "project" else "user"
  }

  function IndexHead(s: Scope): string {
    "---\nversion: 1\nscope: " + ScopeName(s) + "\n---\n\n# Memory index\n"
  }

  /** `_fits`. */
  predicate Fits(y: Layout, m: Limits, content: string) {
    y.lines(content) <= m.lines && Utf8Length(content) <= m.bytes
  }

  function Rows(y: Layout, es: seq<Entry>): string {
    if es == [] then "" else Rows(y, es[..|es| - 1]) + y.row(es[|es| - 1])
  }

  /** How many of the sorted entries fit under `head`, `k` of them being written. */
  function Fitting(y: Layout, m: Limits, head: string, es: seq<Entry>, k: nat): (n: nat)
    requires k <= |es|
    ensures k <= n <= |es|
    ensures forall j :: k < j <= n ==> Fits(y, m, head + Rows(y, es[..j]))
    ensures n < |es| ==> !Fits(y, m, head + Rows(y, es[..n + 1]))
    decreases |es| - k
  {
    if k < |es| && Fits(y, m, head + Rows(y, es[..k + 1])) then Fitting(y, m, head, es, k + 1) else k
  }

  datatype Index = Index(text: string, kept: seq<Entry>)

  /** `encode_index`. */
  function EncodeIndex(y: Layout, m: Limits, s: Scope, es: seq<Entry>): Index {
    var head := IndexHead(s);
    if !Fits(y, m, head) then Index("", [])
    else
      var sorted := Sort(es);
      var n := Fitting(y, m, head, sorted, 0);
      Index(head + Rows(y, sorted[..n]), sorted[..n])
  }

  /** The index keeps as many of the first entries in priority order as fit, within both limits. */
  lemma IndexKeepsPrefix(y: Layout, m: Limits, s: Scope, es: seq<Entry>)
    requires y.lines("") == 0
    ensures
      var i, sorted := EncodeIndex(y, m, s, es), Sort(es);
      && i.kept <= sorted && Fits(y, m, i.text)
      && (Fits(y, m, IndexHead(s)) && |i.kept| < |sorted| ==> !Fits(y, m, i.text + y.row(sorted[|i.kept|])))
  {
    hide IndexHead, Sort, Fits, Fitting;
    var sorted, head := Sort(es), IndexHead(s);
    if Fits(y, m, head) {
      FittingPrefix(y, m, head, sorted);
    } else {
      EmptyFits(y, m);
    }
  }

  lemma EmptyFits(y: Layout, m: Limits)
    requires y.lines("") == 0
    ensures Fits(y, m, "")
  {
  }

  lemma FittingPrefix(y: Layout, m: Limits, head: string, es: seq<Entry>)
    requires Fits(y, m, head)
    ensures
      var n := Fitting(y, m, head, es, 0);
      && Fits(y, m, head + Rows(y, es[..n]))
      && (n < |es| ==> !Fits(y, m, head + Rows(y, es[..n]) + y.row(es[n])))
  {
    hide Fits;
    var n := Fitting(y, m, head, es, 0);
    assert es[..0] == [] && head + "" == head;
    if n < |es| {
      RowsMore(y, es, n);
      assert (head + Rows(y, es[..n])) + y.row(es[n]) == head + Rows(y, es[..n + 1]);
    }
  }

  lemma RowsMore(y: Layout, es: seq<Entry>, k: nat)
    requires k < |es|
    ensures Rows(y, es[..k + 1]) == Rows(y, es[..k]) + y.row(es[k])
  {
    assert es[..k + 1][..k] == es[..k];
  }

  lemma {:induction false} RowsJoin(y: Layout, a: seq<Entry>, b: seq<Entry>)
    ensures Rows(y, a + b) == Rows(y, a) + Rows(y, b)
  {
    if b == [] {
      assert a + b == a;
    } else {
      assert (a + b)[..|a + b| - 1] == a + b[..|b| - 1];
      RowsJoin(y, a, b[..|b| - 1]);
    }
  }

  /** What fits whole fits in part. */
  lemma PartFits(y: Layout, m: Limits, part: string, whole: string)
    requires LayoutOk(y) && part <= whole && Fits(y, m, whole)
    ensures Fits(y, m, part)
  {
    var rest := whole[|part|..];
    assert whole == part + rest;
    hide Utf8Length;
    Utf8Join(part, rest);
    assert y.lines(part) <= y.lines(part + rest);
  }

  lemma {:induction false} FittingWhole(y: Layout, m: Limits, head: string, es: seq<Entry>, k: nat)
    requires LayoutOk(y) && k <= |es| && Fits(y, m, head + Rows(y, es))
    ensures Fitting(y, m, head, es, k) == |es|
    decreases |es| - k
  {
    hide LayoutOk, Fits, Rows;
    if k < |es| {
      assert es == es[..k + 1] + es[k + 1..];
      RowsJoin(y, es[..k + 1], es[k + 1..]);
      PartFits(y, m, head + Rows(y, es[..k + 1]), head + Rows(y, es));
      FittingWhole(y, m, head, es, k + 1);
    }
  }

  lemma HeadIs(s: Scope)
    ensures IndexHead(s) == "---\nversion: 1\nscope: " + (if s.User? then "user" else "project")
        + "\n---\n\n# Memory index\n"
  {
  }

  /**
    The text of an index is its head and a row for each entry it keeps; nothing is left out if and only if all
    fits.
  */
  lemma IndexShows(y: Layout, m: Limits, s: Scope, es: seq<Entry>)
    requires LayoutOk(y)
    ensures
      var i, head := EncodeIndex(y, m, s, es), IndexHead(s);
      && head == "---\nversion: 1\nscope: " + (if s.User? then "user" else "project") + "\n---\n\n# Memory index\n"
      && (!Fits(y, m, head) ==> i == Index("", []))
      && (Fits(y, m, head) ==>
            && i.text == head + Rows(y, i.kept)
            && (i.kept == Sort(es) <==> Fits(y, m, head + Rows(y, Sort(es)))))
  {
    hide LayoutOk, Sort, Fits, Fitting, Rows;
    HeadIs(s);
    hide IndexHead;
    var sorted, head := Sort(es), IndexHead(s);
    if Fits(y, m, head) {
      var n := Fitting(y, m, head, sorted, 0);
      FittingPrefix(y, m, head, sorted);
      if Fits(y, m, head + Rows(y, sorted)) {
        FittingWhole(y, m, head, sorted, 0);
        assert sorted[..n] == sorted;
      } else if sorted[..n] == sorted {
        assert false;
      }
    }
  }

  method SortEntries(es: seq<Entry>) returns (r: seq<Entry>)
    ensures r == Sort(es)
  {
    r := [];
    var k := |es|;
    assert es[k..] == [];
    while k > 0
      invariant 0 <= k <= |es|
      invariant r == Sort(es[k..])
    {
      k := k - 1;
      assert es[k..][0] == es[k] && es[k..][1..] == es[k + 1..];
      r := Insert(es[k], r);
    }
    assert es[0..] == es;
  }

  /** One turn of a loop over sorted entries: the next row is written exactly when it fits. */
  lemma NextRow(y: Layout, m: Limits, head: string, es: seq<Entry>, k: nat, content: string)
    requires k < |es| && content == head + Rows(y, es[..k])
    ensures content + y.row(es[k]) == head + Rows(y, es[..k + 1])
    ensures Fitting(y, m, head, es, k) == if Fits(y, m, content + y.row(es[k])) then Fitting(y, m, head, es, k + 1)
        else k
  {
    hide Fits;
    RowsMore(y, es, k);
  }

  method WriteIndex(y: Layout, m: Limits, s: Scope, es: seq<Entry>) returns (i: Index)
    ensures i == EncodeIndex(y, m, s, es)
  {
    hide *;
    var head := IndexHead(s);
    IndexRefused(y, m, s, es);
    if !Fits(y, m, head) {
      return Index("", []);
    }
    var sorted := SortEntries(es);
    var content, k := head, 0;
    NoRows(y, head, sorted);
    while k < |sorted|
      invariant 0 <= k <= |sorted|
      invariant content == head + Rows(y, sorted[..k])
      invariant Fitting(y, m, head, sorted, k) == Fitting(y, m, head, sorted, 0)
    {
      NextRow(y, m, head, sorted, k, content);
      var candidate := content + y.row(sorted[k]);
      if !Fits(y, m, candidate) {
        break;
      }
      content := candidate;
      k := k + 1;
    }
    IndexDone(y, m, s, es, k);
    return Index(content, sorted[..k]);
  }

  lemma NoRows(y: Layout, head: string, es: seq<Entry>)
    ensures head == head + Rows(y, es[..0])
  {
    assert es[..0] == [] && Rows(y, []) == "";
  }

  lemma IndexRefused(y: Layout, m: Limits, s: Scope, es: seq<Entry>)
    ensures !Fits(y, m, IndexHead(s)) ==> EncodeIndex(y, m, s, es) == Index("", [])
  {
    hide Fits, Sort, Fitting;
  }

  /** The loop that grows the index stopped at `k`: at the end, or at a row that does not fit. */
  lemma IndexDone(y: Layout, m: Limits, s: Scope, es: seq<Entry>, k: nat)
    requires Fits(y, m, IndexHead(s)) && k <= |Sort(es)|
    requires Fitting(y, m, IndexHead(s), Sort(es), k) == Fitting(y, m, IndexHead(s), Sort(es), 0)
    requires k < |Sort(es)| ==> Fitting(y, m, IndexHead(s), Sort(es), k) == k
    ensures EncodeIndex(y, m, s, es) == Index(IndexHead(s) + Rows(y, Sort(es)[..k]), Sort(es)[..k])
  {
    hide Fits, Sort, Fitting, Rows;
  }

  // --- Writing the kept entries again changes nothing ---------------------------------------------

  ghost predicate SameEntries(a: seq<Entry>, b: seq<Entry>) {
    forall x :: x in a <==> x in b
  }

  lemma OrderedPrefix(es: seq<Entry>, n: nat)
    requires Ordered(es) && n <= |es|
    ensures Ordered(es[..n])
  {
  }

  lemma {:induction false} FittingAgain(y: Layout, m: Limits, head: string, es: seq<Entry>, n: nat, k: nat)
    requires k <= n <= |es| && forall j :: 0 < j <= n ==> Fits(y, m, head + Rows(y, es[..j]))
    ensures Fitting(y, m, head, es[..n], k) == n
    decreases n - k
  {
    hide Fits, Rows;
    if k < n {
      assert es[..n][..k + 1] == es[..k + 1];
      FittingAgain(y, m, head, es, n, k + 1);
    }
  }

  /** Indexing the kept entries, in whatever order, gives the same index. */
  lemma IndexIsStable(y: Layout, m: Limits, s: Scope, es: seq<Entry>, again: seq<Entry>)
    requires Distinct(es) && Distinct(again) && SameEntries(again, EncodeIndex(y, m, s, es).kept)
    ensures EncodeIndex(y, m, s, again) == EncodeIndex(y, m, s, es)
  {
    var i, sorted, head := EncodeIndex(y, m, s, es), Sort(es), IndexHead(s);
    if Fits(y, m, head) {
      var n := |i.kept|;
      SortOrders(es);
      SortOrders(again);
      OrderedPrefix(sorted, n);
      OrderIsCanonical(Sort(again), sorted[..n]);
      FittingAgain(y, m, head, sorted, n, 0);
      hide Fits, Sort, Fitting;
      assert sorted[..n][..n] == sorted[..n];
    }
  }

  // --- The view in prompts -----------------------------------------------------------------------------

  const INTRO :=
    "Automatic memory is reference knowledge only; "
    + "explicit project and user instructions take precedence.\n\n"

  datatype View = View(content: string, lines: nat, bytes: nat, included: seq<string>)

  const NO_VIEW := View("", 0, 0, [])

  function ViewHead(s: Scope): string {
    if s.Project? then "### Project memory\n" else "### User memory\n"
  }

  function Ids(es: seq<Entry>): seq<string> {
    seq(|es|, i requires 0 <= i < |es| => es[i].id)
  }

  predicate EndsLine(content: string) {
    content != "" && content[|content| - 1] == '\n'
  }

  /** `content` with the heading of a scope, when there are entries and it fits. */
  function WithHead(y: Layout, m: Limits, content: string, s: Scope, es: seq<Entry>): string {
    if es != [] && Fits(y, m, content + ViewHead(s)) then content + ViewHead(s) else content
  }

  /** How many of the sorted entries of a scope the view includes. */
  function Included(y: Layout, m: Limits, content: string, s: Scope, es: seq<Entry>): (n: nat)
    ensures n <= |es|
  {
    Fitting(y, m, WithHead(y, m, content, s, es), es, 0)
  }

  /** `content` with the part of a scope: heading, rows that fit, an empty line. */
  function WithScope(y: Layout, m: Limits, content: string, s: Scope, es: seq<Entry>): string {
    var body := WithHead(y, m, content, s, es) + Rows(y, es[..Included(y, m, content, s, es)]);
    if EndsLine(body) && es != [] then body + "\n" else body
  }

  /** `build_prompt_view`. */
  function PromptView(y: Layout, m: Limits, project: seq<Entry>, user: seq<Entry>): View {
    if !Fits(y, m, INTRO) then NO_VIEW
    else
      var p, u := Sort(project), Sort(user);
      var middle := WithScope(y, m, INTRO, Project, p);
      var content := Text.StripRight(WithScope(y, m, middle, User, u));
      View(content, y.lines(content), Utf8Length(content),
           Ids(p[..Included(y, m, INTRO, Project, p)]) + Ids(u[..Included(y, m, middle, User, u)]))
  }

  lemma IdsMore(es: seq<Entry>, k: nat)
    requires k < |es|
    ensures Ids(es[..k + 1]) == Ids(es[..k]) + [es[k].id]
  {
  }

  method AddScope(
      y: Layout, m: Limits, content: string, s: Scope, es: seq<Entry>) returns (after: string, included: seq<string>)
    ensures after == WithScope(y, m, content, s, es) && included == Ids(es[..Included(y, m, content, s, es)])
  {
    hide Fits, Fitting, Rows;
    after, included := content, [];
    var head := ViewHead(s);
    if es != [] && Fits(y, m, content + head) {
      after := content + head;
    }
    ghost var start := after;
    var k := 0;
    NoRows(y, start, es);
    assert es[..0] == [];
    while k < |es|
      invariant 0 <= k <= |es|
      invariant after == start + Rows(y, es[..k]) && included == Ids(es[..k])
      invariant Fitting(y, m, start, es, k) == Fitting(y, m, start, es, 0)
    {
      hide *;
      NextRow(y, m, start, es, k, after);
      var row := y.row(es[k]);
      if !Fits(y, m, after + row) {
        break;
      }
      IdsMore(es, k);
      after := after + row;
      included := included + [es[k].id];
      k := k + 1;
    }
    if EndsLine(after) && es != [] {
      after := after + "\n";
    }
  }

  method BuildPromptView(y: Layout, m: Limits, project: seq<Entry>, user: seq<Entry>) returns (v: View)
    ensures v == PromptView(y, m, project, user)
  {
    hide Fits, Sort, WithScope, Included;
    if !Fits(y, m, INTRO) {
      return NO_VIEW;
    }
    var p := SortEntries(project);
    var middle, first := AddScope(y, m, INTRO, Project, p);
    var u := SortEntries(user);
    var all, second := AddScope(y, m, middle, User, u);
    var content := Text.StripRight(all);
    return View(content, y.lines(content), Utf8Length(content), first + second);
  }

  /** A text whose end without white space fits. */
  predicate GoodText(y: Layout, m: Limits, content: string) {
    Fits(y, m, Text.StripRight(content))
  }

  lemma {:induction false} StripIsPrefix(s: string)
    ensures Text.StripRight(s) <= s
  {
    if s != "" && Text.IsSpace(s[|s| - 1]) { StripIsPrefix(s[..|s| - 1]); }
  }

  lemma FittingIsGood(y: Layout, m: Limits, content: string)
    requires LayoutOk(y) && Fits(y, m, content)
    ensures GoodText(y, m, content)
  {
    var p := Text.StripRight(content);
    StripIsPrefix(content);
    var rest := content[|p|..];
    assert content == p + rest;
    hide Text.StripRight, Utf8Length;
    Utf8Join(p, rest);
    assert y.lines(p) <= y.lines(p + rest);
  }

  lemma NewlineIsGood(y: Layout, m: Limits, content: string)
    requires GoodText(y, m, content)
    ensures GoodText(y, m, content + "\n")
  {
    assert (content + "\n")[..|content|] == content;
    assert Text.IsSpace('\n');
    hide Fits;
    assert Text.StripRight(content + "\n") == Text.StripRight(content);
  }

  lemma ScopeIsGood(y: Layout, m: Limits, content: string, s: Scope, es: seq<Entry>)
    requires LayoutOk(y) && GoodText(y, m, content)
    ensures GoodText(y, m, WithScope(y, m, content, s, es))
  {
    var start, n := WithHead(y, m, content, s, es), Included(y, m, content, s, es);
    var body := start + Rows(y, es[..n]);
    if es != [] && Fits(y, m, content + ViewHead(s)) { FittingIsGood(y, m, content + ViewHead(s)); }
    hide GoodText, ViewHead;
    assert GoodText(y, m, start);
    if n > 0 {
      assert Fits(y, m, body);
      FittingIsGood(y, m, body);
    } else {
      assert es[..0] == [] && start + "" == start;
    }
    hide Fits, Rows;
    NewlineIsGood(y, m, body);
  }

  /** The view obeys both limits and includes the first entries of each scope in priority order. */
  lemma ViewObeysLimits(y: Layout, m: Limits, project: seq<Entry>, user: seq<Entry>)
    requires LayoutOk(y)
    ensures
      var v := PromptView(y, m, project, user);
      && v.lines <= m.lines && v.bytes <= m.bytes
      && exists i, j :: 0 <= i <= |Sort(project)| && 0 <= j <= |Sort(user)|
           && v.included == Ids(Sort(project)[..i]) + Ids(Sort(user)[..j])
  {
    var p, u := Sort(project), Sort(user);
    if Fits(y, m, INTRO) {
      var middle := WithScope(y, m, INTRO, Project, p);
      FittingIsGood(y, m, INTRO);
      ScopeIsGood(y, m, INTRO, Project, p);
      ScopeIsGood(y, m, middle, User, u);
      hide Sort, WithScope, Included;
      assert PromptView(y, m, project, user).included
          == Ids(p[..Included(y, m, INTRO, Project, p)]) + Ids(u[..Included(y, m, middle, User, u)]);
    } else {
      assert p[..0] == [] && u[..0] == [] && Ids([]) + Ids([]) == [];
      assert NO_VIEW.included == Ids(p[..0]) + Ids(u[..0]);
    }
  }

  /**
    `after` is `content` with the part of one scope: with entries there is the heading, if it
    fits, then the rows of the first `n` entries, each of which fits, and an empty line. The row
    of the next entry would not fit.
  */
  ghost predicate ShowsScope(
      y: Layout, m: Limits, content: string, after: string, heading: string, es: seq<Entry>, n: nat)
  {
    && n <= |es|
    && var start := if es != [] && Fits(y, m, content + heading) then content + heading else content;
    var body := start + Rows(y, es[..n]);
    && (n < |es| ==> !Fits(y, m, body + y.row(es[n])))
    && (forall k :: 0 < k <= n ==> Fits(y, m, start + Rows(y, es[..k])))
    && after == if es != [] && EndsLine(body) then body + "\n" else body
  }

  /** The text of a view: the introduction, then what `ShowsScope` says of either scope. */
  ghost predicate ShowsView(
      y: Layout, m: Limits, v: View, p: seq<Entry>, u: seq<Entry>, middle: string, all: string, i: nat, j: nat)
  {
    && ShowsScope(y, m, INTRO, middle, "### Project memory\n", p, i)
    && ShowsScope(y, m, middle, all, "### User memory\n", u, j)
    && v == View(Text.StripRight(all), y.lines(v.content), Utf8Length(v.content), Ids(p[..i]) + Ids(u[..j]))
  }

  lemma ScopeShows(y: Layout, m: Limits, content: string, s: Scope, es: seq<Entry>)
    ensures ShowsScope(y, m, content, WithScope(y, m, content, s, es), ViewHead(s), es, Included(y, m, content, s, es))
  {
    hide Fits, Rows, ViewHead, EndsLine;
    var start, n := WithHead(y, m, content, s, es), Included(y, m, content, s, es);
    if n < |es| {
      RowsMore(y, es, n);
      assert (start + Rows(y, es[..n])) + y.row(es[n]) == start + Rows(y, es[..n + 1]);
    }
  }

  /** There is a view if and only if the introduction fits, and then it shows as much of both scopes as fits. */
  lemma ViewShows(y: Layout, m: Limits, project: seq<Entry>, user: seq<Entry>)
    ensures !Fits(y, m, INTRO) ==> PromptView(y, m, project, user) == View("", 0, 0, [])
    ensures Fits(y, m, INTRO) ==> exists middle: string, all: string, i: nat, j: nat ::
                ShowsView(y, m, PromptView(y, m, project, user), Sort(project), Sort(user), middle, all, i, j)
  {
    hide Sort, WithScope, Included, Fits, ShowsScope, Text.StripRight, Utf8Length;
    if Fits(y, m, INTRO) {
      var v, p, u := PromptView(y, m, project, user), Sort(project), Sort(user);
      var middle := WithScope(y, m, INTRO, Project, p);
      var all := WithScope(y, m, middle, User, u);
      ScopeShows(y, m, INTRO, Project, p);
      ScopeShows(y, m, middle, User, u);
      assert ViewHead(Project) == "### Project memory\n" && ViewHead(User) == "### User memory\n";
      assert ShowsView(y, m, v, p, u, middle, all, Included(y, m, INTRO, Project, p), Included(y, m, middle, User, u));
    }
  }
}
