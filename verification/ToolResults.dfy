/**
  Which tool results of a batch are archived, and how far their previews shrink
  (`ToolResultCompactor.compact` in `src/mewcode/context/tool_results.py`).
*/
module ToolResults {
  import opened Wrappers

  /**
    A batch of results in call order: token sizes, call indices, the simulated size of each
    archived form, and `archived(i, b)`, the size of the archived form of result `i` with a
    preview of `b` tokens.
  */
  datatype Batch = Batch(sizes: seq<nat>, calls: seq<nat>, simulated: seq<nat>, archived: (nat, nat) -> nat)

  datatype Limits = Limits(single: nat, batch: nat, preview: nat)

  predicate BatchOk(b: Batch) {
    |b.calls| == |b.sizes| && |b.simulated| == |b.sizes|
  }

  // --- Totals ---------------------------------------------------------------------------

  /** `simulated_total` of the first `n` results. */
  function Total(b: Batch, selected: set<nat>, n: nat): nat
    requires BatchOk(b) && n <= |b.sizes|
  {
    if n == 0 then 0 else Total(b, selected, n - 1) + if n - 1 in selected then b.simulated[n - 1] else b.sizes[n - 1]
  }

  /** `_batch_tokens` of the first `n` results with previews of `budget` tokens. */
  function BatchTokens(b: Batch, selected: set<nat>, budget: nat, n: nat): nat
    requires BatchOk(b) && n <= |b.sizes|
  {
    if n == 0 then 0
    else BatchTokens(b, selected, budget, n - 1) + if n - 1 in selected then b.archived(n - 1, budget)
        else b.sizes[n - 1]
  }

  function AllTokens(b: Batch, selected: set<nat>, budget: nat): nat
    requires BatchOk(b)
  {
    BatchTokens(b, selected, budget, |b.sizes|)
  }

  // --- Which results are archived -----------------------------------------------------------

  function Oversize(b: Batch, limit: nat): set<nat> {
    set i | 0 <= i < |b.sizes| && b.sizes[i] > limit
  }

  /** The order of candidates: larger first, then earlier calls. */
  predicate Ahead(b: Batch, i: nat, j: nat)
    requires BatchOk(b) && i < |b.sizes| && j < |b.sizes|
  {
    b.sizes[i] > b.sizes[j] || (b.sizes[i] == b.sizes[j] && b.calls[i] <= b.calls[j])
  }

  predicate Places(b: Batch, s: seq<nat>) {
    forall i :: 0 <= i < |s| ==> s[i] < |b.sizes|
  }

  function Insert(b: Batch, i: nat, s: seq<nat>): (r: seq<nat>)
    requires BatchOk(b) && i < |b.sizes| && Places(b, s)
    ensures |r| == |s| + 1 && Places(b, r)
  {
    if s == [] || Ahead(b, i, s[0]) then [i] + s else [s[0]] + Insert(b, i, s[1..])
  }

  /** The results from `i` on that are within the single limit, in candidate order. */
  function Candidates(b: Batch, limit: nat, i: nat): (r: seq<nat>)
    requires BatchOk(b) && i <= |b.sizes|
    ensures Places(b, r)
    decreases |b.sizes| - i
  {
    if i == |b.sizes| then []
    else if b.sizes[i] > limit then Candidates(b, limit, i + 1)
    else Insert(b, i, Candidates(b, limit, i + 1))
  }

  predicate InOrder(b: Batch, s: seq<nat>)
    requires BatchOk(b) && Places(b, s)
  {
    forall j, k :: 0 <= j < k < |s| ==> Ahead(b, s[j], s[k])
  }

  lemma {:induction false} InsertKeeps(b: Batch, i: nat, s: seq<nat>)
    requires BatchOk(b) && i < |b.sizes| && Places(b, s) && InOrder(b, s)
    ensures InOrder(b, Insert(b, i, s)) && forall x :: x in Insert(b, i, s) <==> x == i || x in s
  {
    if s == [] {
    } else if Ahead(b, i, s[0]) {
      var r := [i] + s;
      forall j, k | 0 <= j < k < |r| ensures Ahead(b, r[j], r[k]) {
        if j == 0 && k > 1 { assert Ahead(b, s[0], s[k - 1]); }
        if j > 0 { assert Ahead(b, s[j - 1], s[k - 1]); }
      }
    } else {
      var tail := Insert(b, i, s[1..]);
      assert InOrder(b, s[1..]) by {
        forall j, k | 0 <= j < k < |s[1..]|
            ensures Ahead(b, s[1..][j], s[1..][k]) { assert Ahead(b, s[j + 1], s[k + 1]); }
      }
      InsertKeeps(b, i, s[1..]);
      forall k | 0 <= k < |tail| ensures Ahead(b, s[0], tail[k]) {
        assert tail[k] in tail;
        if tail[k] != i {
          var q :| 0 <= q < |s[1..]| && s[1..][q] == tail[k];
          assert Ahead(b, s[0], s[q + 1]);
        }
      }
      assert s == [s[0]] + s[1..];
      FrontOrder(b, s[0], tail);
    }
  }

  lemma FrontOrder(b: Batch, first: nat, tail: seq<nat>)
    requires BatchOk(b) && first < |b.sizes| && Places(b, tail) && InOrder(b, tail)
    requires forall k :: 0 <= k < |tail| ==> Ahead(b, first, tail[k])
    ensures Places(b, [first] + tail) && InOrder(b, [first] + tail)
  {
    var r := [first] + tail;
    forall j, k | 0 <= j < k < |r| ensures Ahead(b, r[j], r[k]) {
      if j > 0 { assert Ahead(b, tail[j - 1], tail[k - 1]); }
    }
  }

  lemma {:induction false} CandidatesAre(b: Batch, limit: nat, i: nat)
    requires BatchOk(b) && i <= |b.sizes|
    ensures InOrder(b, Candidates(b, limit, i))
    ensures forall x :: x in Candidates(b, limit, i) <==> i <= x < |b.sizes| && b.sizes[x] <= limit
    decreases |b.sizes| - i
  {
    if i < |b.sizes| {
      CandidatesAre(b, limit, i + 1);
      if b.sizes[i] <= limit { InsertKeeps(b, i, Candidates(b, limit, i + 1)); }
    }
  }

  function SetOf(s: seq<nat>): set<nat> {
    set i | i in s
  }

  /** How many candidates join the selection, `k` having joined. */
  function Join(b: Batch, limits: Limits, order: seq<nat>, k: nat): (n: nat)
    requires BatchOk(b) && k <= |order|
    ensures k <= n <= |order|
    ensures n < |order| ==> Total(b, Oversize(b, limits.single) + SetOf(order[..n]), |b.sizes|) <= limits.batch
    ensures forall m :: k <= m < n ==>
        Total(b, Oversize(b, limits.single) + SetOf(order[..m]), |b.sizes|) > limits.batch
    decreases |order| - k
  {
    if k < |order| && Total(b, Oversize(b, limits.single) + SetOf(order[..k]), |b.sizes|) > limits.batch
    then Join(b, limits, order, k + 1) else k
  }

  function Selected(b: Batch, limits: Limits): set<nat>
    requires BatchOk(b)
  {
    var order := Candidates(b, limits.single, 0);
    Oversize(b, limits.single) + SetOf(order[..Join(b, limits, order, 0)])
  }

  predicate NoRepeats(s: seq<nat>) {
    forall j, k :: 0 <= j < k < |s| ==> s[j] != s[k]
  }

  lemma {:induction false} InsertDistinct(b: Batch, i: nat, s: seq<nat>)
    requires BatchOk(b) && i < |b.sizes| && Places(b, s) && i !in s
    requires NoRepeats(s)
    ensures forall x :: x in Insert(b, i, s) <==> x == i || x in s
    ensures NoRepeats(Insert(b, i, s))
  {
    hide Ahead;
    if s != [] && !Ahead(b, i, s[0]) {
      InsertDistinct(b, i, s[1..]);
      assert s == [s[0]] + s[1..];
      var tail := Insert(b, i, s[1..]);
      forall k | 0 <= k < |tail| ensures tail[k] != s[0] {
        assert tail[k] in tail;
        if tail[k] in s[1..] {
          var q :| 0 <= q < |s[1..]| && s[1..][q] == tail[k];
          assert s[q + 1] == tail[k];
        }
      }
    }
  }

  lemma {:induction false} CandidatesDistinct(b: Batch, limit: nat, i: nat)
    requires BatchOk(b) && i <= |b.sizes|
    ensures NoRepeats(Candidates(b, limit, i))
    decreases |b.sizes| - i
  {
    if i < |b.sizes| {
      CandidatesDistinct(b, limit, i + 1);
      CandidatesAre(b, limit, i + 1);
      hide Candidates, InOrder;
      if b.sizes[i] <= limit {
        assert i !in Candidates(b, limit, i + 1);
        InsertDistinct(b, i, Candidates(b, limit, i + 1));
        assert Candidates(b, limit, i) == Insert(b, i, Candidates(b, limit, i + 1)) by { CandidatesNext(b, limit, i); }
      } else {
        CandidatesNext(b, limit, i);
      }
    }
  }

  lemma CandidatesNext(b: Batch, limit: nat, i: nat)
    requires BatchOk(b) && i < |b.sizes|
    ensures Candidates(b, limit, i)
         == if b.sizes[i] > limit then Candidates(b, limit, i + 1) else Insert(b, i, Candidates(b, limit, i + 1))
  {
    hide Insert;
  }

  /** Of the selected results within the single limit, `i` comes last in the order of candidates. */
  predicate LastOf(b: Batch, limits: Limits, s: set<nat>, i: nat)
    requires BatchOk(b)
  {
    && i in s && i < |b.sizes| && b.sizes[i] <= limits.single
    && forall j :: j in s && j < |b.sizes| && b.sizes[j] <= limits.single ==> Ahead(b, j, i)
  }

  /**
    Not one result more than needed: without its last candidate the selection is still over the batch
    limit. Calls of one batch have distinct indices, so only one candidate is the last.
  */
  lemma SelectionIsLeast(b: Batch, limits: Limits)
    requires BatchOk(b)
    ensures
      var s := Selected(b, limits);
      && (s != Oversize(b, limits.single) ==>
            exists i :: LastOf(b, limits, s, i) && Total(b, s - {i}, |b.sizes|) > limits.batch)
      && ((forall i, j :: 0 <= i < j < |b.calls| ==> b.calls[i] != b.calls[j]) ==>
            forall i :: LastOf(b, limits, s, i) ==> Total(b, s - {i}, |b.sizes|) > limits.batch)
  {
    var order, over := Candidates(b, limits.single, 0), Oversize(b, limits.single);
    var n, s := Join(b, limits, order, 0), Selected(b, limits);
    CandidatesAre(b, limits.single, 0);
    CandidatesDistinct(b, limits.single, 0);
    hide Candidates, Total, Join;
    if n == 0 {
      assert order[..0] == [] && SetOf(order[..0]) == {} && s == over;
    } else {
      var last := order[n - 1];
      LastJoined(b, limits, order, n);
      assert s - {last} == over + SetOf(order[..n - 1]);
      forall i | LastOf(b, limits, s, i) && forall i, j :: 0 <= i < j < |b.calls| ==> b.calls[i] != b.calls[j]
        ensures i == last
      {
        assert Ahead(b, last, i) && Ahead(b, i, last);
      }
    }
  }

  lemma LastJoined(b: Batch, limits: Limits, order: seq<nat>, n: nat)
    requires BatchOk(b) && Places(b, order) && InOrder(b, order) && 0 < n <= |order|
    requires forall x :: x in order <==> 0 <= x < |b.sizes| && b.sizes[x] <= limits.single
    requires NoRepeats(order)
    ensures
      var over := Oversize(b, limits.single);
      var s := over + SetOf(order[..n]);
      LastOf(b, limits, s, order[n - 1]) && s - {order[n - 1]} == over + SetOf(order[..n - 1])
  {
    var over, last := Oversize(b, limits.single), order[n - 1];
    var s := over + SetOf(order[..n]);
    assert order[..n] == order[..n - 1] + [last] && last in order;
    assert forall k :: 0 <= k < n - 1 ==> order[..n - 1][k] == order[k];
    assert SetOf(order[..n]) == SetOf(order[..n - 1]) + {last};
    assert last !in SetOf(order[..n - 1]) && last !in over;
    forall j | j in s && j < |b.sizes| && b.sizes[j] <= limits.single ensures Ahead(b, j, last) {
      var k :| 0 <= k < |order[..n]| && order[..n][k] == j;
      assert order[k] == j && k <= n - 1;
    }
  }

  /**
    Every oversize result is archived; of the others the largest ones are, one after the other,
    until the simulated total fits or none is left.
  */
  lemma SelectionIsGreedy(b: Batch, limits: Limits)
    requires BatchOk(b)
    ensures
      var s := Selected(b, limits);
      && (forall i :: i in s ==> i < |b.sizes|) && Oversize(b, limits.single) <= s
      && (forall i, j :: i in s && b.sizes[i] <= limits.single && 0 <= j < |b.sizes| && j !in s ==>
            b.sizes[i] > b.sizes[j] || (b.sizes[i] == b.sizes[j] && b.calls[i] <= b.calls[j]))
      && (Total(b, s, |b.sizes|) <= limits.batch || forall i :: 0 <= i < |b.sizes| ==> i in s)
  {
    var order, over := Candidates(b, limits.single, 0), Oversize(b, limits.single);
    CandidatesAre(b, limits.single, 0);
    var n, s := Join(b, limits, order, 0), Selected(b, limits);
    hide Candidates, Total, Join;
    forall i, j | i in s && b.sizes[i] <= limits.single && 0 <= j < |b.sizes| && j !in s ensures Ahead(b, i, j) {
      assert i !in over && i in SetOf(order[..n]);
      var x :| 0 <= x < |order[..n]| && order[..n][x] == i;
      assert j in order;
      var y :| 0 <= y < |order| && order[y] == j;
      assert forall k :: 0 <= k < n ==> order[..n][k] == order[k] && order[k] in SetOf(order[..n]);
      assert Ahead(b, order[x], order[y]);
    }
    if n == |order| {
      assert order[..n] == order;
      forall i | 0 <= i < |b.sizes| ensures i in s { assert i in over || i in order; }
    }
  }

  /** Archiving one more result replaces its size by the simulated one; with none archived the sizes add up. */
  lemma {:induction false} ArchivingOne(b: Batch, selected: set<nat>, i: nat, n: nat)
    requires BatchOk(b) && i !in selected && n <= |b.sizes|
    ensures i < n ==> Total(b, selected + {i}, n) + b.sizes[i] == Total(b, selected, n) + b.simulated[i]
    ensures i >= n ==> Total(b, selected + {i}, n) == Total(b, selected, n)
    ensures Total(b, {}, n) == Sum(b.sizes[..n])
  {
    if n > 0 {
      assert b.sizes[..n][..n - 1] == b.sizes[..n - 1];
      ArchivingOne(b, selected, i, n - 1);
    }
  }

  /** The same for the sizes of the archived forms with previews of `budget` tokens. */
  lemma {:induction false} ArchivedOne(b: Batch, selected: set<nat>, budget: nat, i: nat, n: nat)
    requires BatchOk(b) && i !in selected && n <= |b.sizes|
    ensures i < n ==> BatchTokens(b, selected + {i}, budget, n) + b.sizes[i]
                      == BatchTokens(b, selected, budget, n) + b.archived(i, budget)
    ensures i >= n ==> BatchTokens(b, selected + {i}, budget, n) == BatchTokens(b, selected, budget, n)
    ensures BatchTokens(b, {}, budget, n) == Sum(b.sizes[..n])
  {
    if n > 0 {
      assert b.sizes[..n][..n - 1] == b.sizes[..n - 1];
      ArchivedOne(b, selected, budget, i, n - 1);
    }
  }

  function Sum(sizes: seq<nat>): nat {
    if sizes == [] then 0 else Sum(sizes[..|sizes| - 1]) + sizes[|sizes| - 1]
  }

  /** Nothing is archived if and only if no result is oversize and all of them together fit. */
  lemma NothingSelectedIff(b: Batch, limits: Limits)
    requires BatchOk(b)
    ensures Selected(b, limits) == {} <==>
            (forall i :: 0 <= i < |b.sizes| ==> b.sizes[i] <= limits.single) && Sum(b.sizes) <= limits.batch
  {
    hide Selected, Sum, Total, Oversize, SetOf, Join, Candidates;
    SelectionIsGreedy(b, limits);
    ArchivingOne(b, {}, |b.sizes|, |b.sizes|);
    assert b.sizes[..|b.sizes|] == b.sizes;
    var s := Selected(b, limits);
    if s == {} {
      NoneOversize(b, limits.single);
      if |b.sizes| == 0 { NoSizes(b.sizes); } else { assert 0 !in s; }
    }
    if (forall i :: 0 <= i < |b.sizes| ==> b.sizes[i] <= limits.single) && Sum(b.sizes) <= limits.batch {
      NoneOversize(b, limits.single);
      NoneJoined(b, limits);
    }
  }

  lemma NoneOversize(b: Batch, limit: nat)
    ensures Oversize(b, limit) == {} <==> forall i :: 0 <= i < |b.sizes| ==> b.sizes[i] <= limit
  {
    forall i | 0 <= i < |b.sizes| && b.sizes[i] > limit ensures i in Oversize(b, limit) { }
  }

  lemma NoneJoined(b: Batch, limits: Limits)
    requires BatchOk(b) && Oversize(b, limits.single) == {} && Total(b, {}, |b.sizes|) <= limits.batch
    ensures Selected(b, limits) == {}
  {
    hide Total, Candidates, Oversize;
    var order := Candidates(b, limits.single, 0);
    assert order[..0] == [];
    assert SetOf(order[..0]) == {};
    assert {} + SetOf(order[..0]) == {};
    assert Join(b, limits, order, 0) == 0;
  }

  lemma NoSizes(sizes: seq<nat>)
    requires sizes == []
    ensures Sum(sizes) == 0
  {
  }

  // --- How far previews shrink -------------------------------------------------------------------

  /** `cut` of `count` previews takes at least `excess` tokens, and one less does not. */
  lemma CeilingIs(excess: nat, count: nat, budget: nat)
    requires count > 0
    ensures
      var cut := (excess + count - 1) / count;
      cut * count >= excess && (cut > 0 ==> (cut - 1) * count < excess)
    ensures budget > 0 ==> (budget <= (excess + count - 1) / count ==> (budget - 1) * count < excess)
  {
    var cut := (excess + count - 1) / count;
    assert cut * count + (excess + count - 1) % count == excess + count - 1;
    if 0 < budget <= cut { assert (budget - 1) * count <= (cut - 1) * count; }
  }

  /** Each selected preview gives up an equal share of the excess, no more than that and at least one token. */
  function Less(budget: nat, excess: nat, count: nat): (r: nat)
    requires budget > 0 && count > 0
    ensures r < budget && (r == 0 || (budget - r) * count >= excess)
    ensures budget - r > 1 ==> (budget - r - 1) * count < excess
  {
    var cut := (excess + count - 1) / count;
    var least := if cut < 1 then 1 else cut;
    CeilingIs(excess, count, budget);
    if budget < least then 0 else budget - least
  }

  /** The preview budget at which the batch fits, or none is left. */
  function Settle(b: Batch, selected: set<nat>, limit: nat, budget: nat): (r: nat)
    requires BatchOk(b) && selected != {}
    ensures r <= budget && (AllTokens(b, selected, r) <= limit || r == 0)
    ensures AllTokens(b, selected, budget) <= limit ==> r == budget
    decreases budget
  {
    if AllTokens(b, selected, budget) <= limit || budget == 0 then budget
    else Settle(b, selected, limit, Less(budget, AllTokens(b, selected, budget) - limit, |selected|))
  }

  // --- The compactor --------------------------------------------------------------------------------

  /** For each result its preview budget if it is archived. */
  type Compaction = seq<Option<nat>>

  function Replaced(b: Batch, selected: set<nat>, budget: nat): (r: Compaction)
    ensures |r| == |b.sizes|
  {
    seq(|b.sizes|, i requires 0 <= i < |b.sizes| => if i in selected then Some(budget) else None)
  }

  class ToolResultCompactor {
    const limits: Limits
    var records: seq<nat>        // archived places, in the order of writing

    constructor (limits: Limits)
      ensures this.limits == limits && records == []
    {
      this.limits, records := limits, [];
    }

    method SimulatedTotal(b: Batch, selected: set<nat>) returns (total: nat)
      requires BatchOk(b)
      ensures total == Total(b, selected, |b.sizes|)
    {
      total := 0;
      for i := 0 to |b.sizes|
        invariant total == Total(b, selected, i)
      {
        total := total + if i in selected then b.simulated[i] else b.sizes[i];
      }
    }

    method CountTokens(b: Batch, selected: set<nat>, budget: nat) returns (total: nat)
      requires BatchOk(b)
      ensures total == AllTokens(b, selected, budget)
    {
      total := 0;
      for i := 0 to |b.sizes|
        invariant total == BatchTokens(b, selected, budget, i)
      {
        total := total + if i in selected then b.archived(i, budget) else b.sizes[i];
      }
    }

    method Select(b: Batch) returns (selected: set<nat>)
      requires BatchOk(b)
      ensures selected == Selected(b, limits)
    {
      hide Total, Candidates;
      selected := set i | 0 <= i < |b.sizes| && b.sizes[i] > limits.single;
      var order := Candidates(b, limits.single, 0);
      var k := 0;
      assert SetOf(order[..0]) == {};
      while true
        invariant 0 <= k <= |order|
        invariant selected == Oversize(b, limits.single) + SetOf(order[..k])
        invariant Join(b, limits, order, k) == Join(b, limits, order, 0)
        decreases |order| - k
      {
        var total := SimulatedTotal(b, selected);
        if total <= limits.batch || k == |order| {
          return;
        }
        assert SetOf(order[..k + 1]) == SetOf(order[..k]) + {order[k]};
        selected := selected + {order[k]};
        k := k + 1;
      }
    }

    /** The archived places in ascending order; a failed write discards those before it. */
    method ArchiveAll(b: Batch, selected: set<nat>, writes: seq<bool>) returns (ok: bool)
      requires BatchOk(b) && |writes| == |b.sizes|
      modifies this
      ensures ok <==> forall i :: 0 <= i < |b.sizes| && i in selected ==> writes[i]
      ensures records == if ok then old(records) + Ascending(selected, |b.sizes|) else old(records)
    {
      ghost var before := records;
      var written: seq<nat> := [];
      for i := 0 to |b.sizes|
        invariant written == Ascending(selected, i) && records == before + written
        invariant forall k :: 0 <= k < i && k in selected ==> writes[k]
      {
        if i in selected {
          if !writes[i] {
            records := records[..|records| - |written|];
            assert records == before;
            return false;
          }
          records := records + [i];
          written := written + [i];
        }
      }
      return true;
    }

    /** `compact`: None when an archive write fails. */
    method Compact(b: Batch, writes: seq<bool>) returns (r: Option<Compaction>)
      requires BatchOk(b) && |writes| == |b.sizes|
      modifies this
      ensures
        var s := Selected(b, limits);
        && (r.None? <==> exists i :: 0 <= i < |b.sizes| && i in s && !writes[i])
        && (r.None? ==> records == old(records))
        && (r.Some? ==> records == old(records) + Ascending(s, |b.sizes|))
        && (r.Some? && s == {} ==> r.value == Replaced(b, s, 0))
        && (r.Some? && s != {} ==> r.value == Replaced(b, s, Settle(b, s, limits.batch, limits.preview)))
    {
      hide Selected, BatchTokens;
      var selected := Select(b);
      if selected == {} {
        assert Ascending(selected, |b.sizes|) == [] by { NoPlaces(selected, |b.sizes|); }
        assert records + [] == records;
        return Some(Replaced(b, selected, 0));
      }
      var ok := ArchiveAll(b, selected, writes);
      if !ok {
        return None;
      }
      var budget: nat := limits.preview;
      while true
        invariant budget <= limits.preview && records == old(records) + Ascending(selected, |b.sizes|)
        invariant Settle(b, selected, limits.batch, budget) == Settle(b, selected, limits.batch, limits.preview)
        decreases budget
      {
        var total := CountTokens(b, selected, budget);
        if total <= limits.batch || budget == 0 {
          break;
        }
        budget := Less(budget, total - limits.batch, |selected|);
      }
      return Some(Replaced(b, selected, budget));
    }
  }

  function Ascending(selected: set<nat>, n: nat): seq<nat> {
    if n == 0 then [] else Ascending(selected, n - 1) + if n - 1 in selected then [n - 1] else []
  }

  /** The selected places of the first `n`, each once, in ascending order. */
  lemma {:induction false} AscendingIs(selected: set<nat>, n: nat)
    ensures forall i :: i in Ascending(selected, n) <==> i in selected && i < n
    ensures forall j, k :: 0 <= j < k < |Ascending(selected, n)| ==>
              Ascending(selected, n)[j] < Ascending(selected, n)[k]
  {
    if n > 0 {
      AscendingIs(selected, n - 1);
      var before := Ascending(selected, n - 1);
      forall k | 0 <= k < |before| ensures before[k] < n - 1 { assert before[k] in before; }
    }
  }

  lemma {:induction false} NoPlaces(selected: set<nat>, n: nat)
    requires selected == {}
    ensures Ascending(selected, n) == []
  {
    if n > 0 { NoPlaces(selected, n - 1); }
  }

  /**
    A compaction keeps the number and order of the results and every result it did not select,
    archives every oversize one, and ends within the batch limit or with empty previews.
  */
  lemma CompactionSettles(b: Batch, limits: Limits)
    requires BatchOk(b) && Selected(b, limits) != {}
    ensures
      var s := Selected(b, limits);
      var budget := Settle(b, s, limits.batch, limits.preview);
      var r := Replaced(b, s, budget);
      && |r| == |b.sizes|
      && (forall i :: 0 <= i < |b.sizes| && b.sizes[i] > limits.single ==> r[i].Some?)
      && (forall i :: 0 <= i < |b.sizes| && i !in s ==> r[i].None?)
      && (AllTokens(b, s, budget) <= limits.batch || forall i :: 0 <= i < |b.sizes| && r[i].Some? ==> r[i].value == 0)
  {
    SelectionIsGreedy(b, limits);
    hide Selected, BatchTokens;
  }
}
