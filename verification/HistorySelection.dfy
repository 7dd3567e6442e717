/**
  Splitting a history into an early part to summarise and a recent part to keep, and the
  compacted history (`src/mewcode/context/summary.py`).
*/
module HistorySelection {
  import opened Wrappers
  import opened Chat
  import opened ToolPairing

  /** The floors are positive; the estimate of one message stays opaque. */
  datatype Floors = Floors(tokens: nat, messages: nat, estimate: ChatMessage -> nat)

  predicate FloorsOk(f: Floors) {
    1 <= f.tokens && 1 <= f.messages
  }

  predicate IsMarker(m: ChatMessage) {
    m.kind.Summary? || m.kind.Boundary?
  }

  function Tokens(f: Floors, messages: seq<ChatMessage>): nat {
    if messages == [] then 0 else f.estimate(messages[0]) + Tokens(f, messages[1..])
  }

  predicate Meets(f: Floors, messages: seq<ChatMessage>) {
    Tokens(f, messages) >= f.tokens && |messages| >= f.messages
  }

  // --- Where the recent part begins ---------------------------------------------------

  /** The place where the recent messages begin. */
  function RecentStart(f: Floors, messages: seq<ChatMessage>): (p: nat)
    ensures p <= |messages|
    decreases |messages|
  {
    if messages == [] then 0
    else
      var n := FirstRun(messages);
      var q := n + RecentStart(f, messages[n..]);
      if Meets(f, messages[q..]) then q else 0
  }

  /** The recent part is made of whole groups, and no later start meets both floors. */
  predicate IsRecentStart(f: Floors, messages: seq<ChatMessage>, p: nat) {
    && p <= |messages| && IsBoundary(messages, p)
    && (p > 0 ==> Meets(f, messages[p..]))
    && forall q :: p < q <= |messages| && IsBoundary(messages, q) ==> !Meets(f, messages[q..])
  }

  lemma TailBoundary(messages: seq<ChatMessage>, n: nat, i: nat)
    requires n <= i <= |messages| && IsBoundary(messages, n)
    ensures IsBoundary(messages, i) <==> IsBoundary(messages[n..], i - n)
  {
  }

  lemma RecentIsShortest(f: Floors, messages: seq<ChatMessage>)
    requires FloorsOk(f)
    ensures IsRecentStart(f, messages, RecentStart(f, messages))
    ensures
      var p := RecentStart(f, messages);
      && (p > 0 ==> Tokens(f, messages[p..]) >= f.tokens && |messages| - p >= f.messages)
      && forall q :: p < q <= |messages| && IsBoundary(messages, q) ==>
           Tokens(f, messages[q..]) < f.tokens || |messages| - q < f.messages
  {
    hide *;
    StartIsRecent(f, messages);
    MeetsMeans(f, messages, RecentStart(f, messages));
  }

  lemma {:induction false} StartIsRecent(f: Floors, messages: seq<ChatMessage>)
    requires FloorsOk(f)
    ensures IsRecentStart(f, messages, RecentStart(f, messages))
    decreases |messages|
  {
    if messages != [] {
      hide FirstRun, RecentStart, Meets, IsRecentStart;
      var n := FirstRun(messages);
      FirstRunMeaning(messages);
      StartIsRecent(f, messages[n..]);
      RecentNext(f, messages);
      StartOfMore(f, messages, n, RecentStart(f, messages[n..]));
    }
  }

  lemma MeetsMeans(f: Floors, messages: seq<ChatMessage>, p: nat)
    requires IsRecentStart(f, messages, p)
    ensures p > 0 ==> Tokens(f, messages[p..]) >= f.tokens && |messages| - p >= f.messages
    ensures forall q :: p < q <= |messages| && IsBoundary(messages, q) ==>
              Tokens(f, messages[q..]) < f.tokens || |messages| - q < f.messages
  {
    hide IsBoundary, Tokens;
  }

  lemma RecentNext(f: Floors, messages: seq<ChatMessage>)
    requires messages != []
    ensures
      var p := FirstRun(messages) + RecentStart(f, messages[FirstRun(messages)..]);
      RecentStart(f, messages) == if Meets(f, messages[p..]) then p else 0
  {
    hide FirstRun, Meets;
  }

  /** The start for a history follows from the one for the history without its first run. */
  lemma StartOfMore(f: Floors, messages: seq<ChatMessage>, n: nat, r: nat)
    requires 1 <= n <= |messages| && IsBoundary(messages, n) && (forall i :: 0 < i < n ==> !IsBoundary(messages, i))
    requires IsRecentStart(f, messages[n..], r)
    ensures IsRecentStart(f, messages, if Meets(f, messages[n + r..]) then n + r else 0)
  {
    hide Meets;
    var rest, p := messages[n..], n + r;
    assert messages[p..] == rest[r..];
    TailBoundary(messages, n, p);
    forall q | (if Meets(f, messages[p..]) then p else 0) < q <= |messages| && IsBoundary(messages, q)
      ensures !Meets(f, messages[q..])
    {
      if q > p {
        TailBoundary(messages, n, q);
        assert messages[q..] == rest[q - n..];
      }
    }
  }

  lemma RecentStartUnique(f: Floors, messages: seq<ChatMessage>, p: nat)
    requires FloorsOk(f) && IsRecentStart(f, messages, p)
    ensures p == RecentStart(f, messages)
  {
    StartIsRecent(f, messages);
  }

  // --- Selection -------------------------------------------------------------------------

  datatype Selection = Selection(early: seq<ChatMessage>, recent: seq<ChatMessage>, canCompact: bool)

  /** The messages that are not markers, in order. */
  function Ordinary(messages: seq<ChatMessage>): (s: seq<ChatMessage>)
    ensures |s| <= |messages|
    ensures forall i :: 0 <= i < |s| ==> !IsMarker(s[i])
  {
    if messages == [] then []
    else (if IsMarker(messages[0]) then [] else [messages[0]]) + Ordinary(messages[1..])
  }

  /** All markers, and the first `n` ordinary messages, in order. */
  function Early(messages: seq<ChatMessage>, n: nat): seq<ChatMessage> {
    if messages == [] then []
    else if IsMarker(messages[0]) then [messages[0]] + Early(messages[1..], n)
    else if n > 0 then [messages[0]] + Early(messages[1..], n - 1)
    else Early(messages[1..], 0)
  }

  function Select(f: Floors, messages: seq<ChatMessage>): Selection {
    var ordinary := Ordinary(messages);
    var p := RecentStart(f, ordinary);
    Selection(if p > 0 then Early(messages, p) else [], ordinary[p..], p > 0)
  }

  function Markers(messages: seq<ChatMessage>): seq<ChatMessage> {
    if messages == [] then []
    else (if IsMarker(messages[0]) then [messages[0]] else []) + Markers(messages[1..])
  }

  /**
    When something can be compacted, the early part holds every marker, the ordinary messages
    are divided in order between both parts, and the recent part holds no marker.
  */
  lemma SelectionLosesNothing(f: Floors, messages: seq<ChatMessage>)
    requires Select(f, messages).canCompact
    ensures
      var s := Select(f, messages);
      && Markers(s.early) == Markers(messages)
      && Ordinary(s.early) + s.recent == Ordinary(messages)
      && Ordinary(s.early) != []
      && forall i :: 0 <= i < |s.recent| ==> !IsMarker(s.recent[i])
  {
    hide Early, Ordinary, RecentStart, Markers, IsMarker;
    var p := RecentStart(f, Ordinary(messages));
    EarlyParts(messages, p);
    assert Ordinary(messages)[..p] + Ordinary(messages)[p..] == Ordinary(messages);
  }

  lemma {:induction false} EarlyParts(messages: seq<ChatMessage>, n: nat)
    requires n <= |Ordinary(messages)|
    ensures Ordinary(Early(messages, n)) == Ordinary(messages)[..n]
    ensures Markers(Early(messages, n)) == Markers(messages)
  {
    hide *;
    EmptyParts(n);
    if messages != [] {
      var head, tail := messages[0], messages[1..];
      assert messages == [head] + tail;
      SplitFirst(head, tail, n);
      if IsMarker(head) {
        EarlyParts(tail, n);
        SplitFirst(head, Early(tail, n), n);
      } else if n > 0 {
        EarlyParts(tail, n - 1);
        SplitFirst(head, Early(tail, n - 1), n);
        assert ([head] + Ordinary(tail))[..n] == [head] + Ordinary(tail)[..n - 1];
      } else {
        EarlyParts(tail, 0);
        assert Ordinary(tail)[..0] == [] == Ordinary(messages)[..0];
      }
    }
  }

  lemma EmptyParts(n: nat)
    ensures Early([], n) == [] && Ordinary([]) == [] && Markers([]) == []
  {
  }

  lemma SplitFirst(head: ChatMessage, tail: seq<ChatMessage>, n: nat)
    ensures Ordinary([head] + tail) == if IsMarker(head) then Ordinary(tail) else [head] + Ordinary(tail)
    ensures Markers([head] + tail) == if IsMarker(head) then [head] + Markers(tail) else Markers(tail)
    ensures Early([head] + tail, n)
         == if IsMarker(head) then [head] + Early(tail, n) else if n > 0 then [head] + Early(tail, n - 1)
             else Early(tail, 0)
  {
    hide IsMarker;
    assert ([head] + tail)[1..] == tail;
  }

  // --- The loops ---------------------------------------------------------------------------

  type Indexed = (nat, ChatMessage)

  function Plain(items: seq<Indexed>): (s: seq<ChatMessage>)
    ensures |s| == |items|
  {
    seq(|items|, i requires 0 <= i < |items| => items[i].1)
  }

  function Flat(groups: seq<seq<Indexed>>): seq<Indexed> {
    if groups == [] then [] else Flat(groups[..|groups| - 1]) + groups[|groups| - 1]
  }

  /** Nonempty groups, each a maximal run of one group id. */
  predicate AreGroups(items: seq<Indexed>, groups: seq<seq<Indexed>>) {
    && Flat(groups) == items
    && (forall g :: 0 <= g < |groups| ==> groups[g] != [] && OneGroup(Plain(groups[g])))
    && (forall g :: 0 < g < |groups| ==> Apart(Plain(groups[g - 1]), Plain(groups[g])))
  }

  predicate OneGroup(messages: seq<ChatMessage>) {
    |messages| <= 1 || forall i :: 0 <= i < |messages| ==>
        messages[i].groupId.Some? && messages[i].groupId == messages[0].groupId
  }

  predicate Apart(a: seq<ChatMessage>, b: seq<ChatMessage>) {
    a != [] && b != [] ==> b[0].groupId.None? || b[0].groupId != a[|a| - 1].groupId
  }

  function LastOf(groups: seq<seq<Indexed>>): ChatMessage
    requires groups != [] && groups[|groups| - 1] != []
  {
    var last := groups[|groups| - 1];
    last[|last| - 1].1
  }

  lemma GrowLast(items: seq<Indexed>, groups: seq<seq<Indexed>>, item: Indexed)
    requires AreGroups(items, groups) && groups != []
    requires item.1.groupId.Some? && LastOf(groups).groupId == item.1.groupId
    ensures AreGroups(items + [item], groups[..|groups| - 1] + [groups[|groups| - 1] + [item]])
  {
    var count := |groups|;
    var last, after := groups[count - 1], groups[..count - 1] + [groups[count - 1] + [item]];
    assert after[..count - 1] == groups[..count - 1];
    assert Plain(last + [item]) == Plain(last) + [item.1];
    assert Plain(last)[|last| - 1] == LastOf(groups);
    assert OneGroup(Plain(last));
    assert OneGroup(Plain(last + [item]));
    hide OneGroup;
    assert Plain(last + [item])[0] == Plain(last)[0];
    assert forall g :: 0 < g < count ==> Apart(Plain(groups[g - 1]), Plain(groups[g]));
    hide Plain;
    assert forall g :: 0 <= g < count - 1 ==> after[g] == groups[g];
  }

  lemma AddGroup(items: seq<Indexed>, groups: seq<seq<Indexed>>, item: Indexed)
    requires AreGroups(items, groups)
    requires groups != [] ==> item.1.groupId.None? || LastOf(groups).groupId != item.1.groupId
    ensures AreGroups(items + [item], groups + [[item]])
  {
    var count, after := |groups|, groups + [[item]];
    assert after[..count] == groups;
    assert Plain([item]) == [item.1];
    if groups != [] { assert Plain(groups[count - 1])[|groups[count - 1]| - 1] == LastOf(groups); }
    assert forall g :: 0 < g < count ==> Apart(Plain(groups[g - 1]), Plain(groups[g]));
  }

  method AtomicGroups(items: seq<Indexed>) returns (groups: seq<seq<Indexed>>)
    ensures AreGroups(items, groups)
  {
    groups := [];
    var i := 0;
    while i < |items|
      invariant 0 <= i <= |items|
      invariant AreGroups(items[..i], groups)
    {
      var item, count := items[i], |groups|;
      assert items[..i + 1] == items[..i] + [item];
      assert groups != [] ==> groups[count - 1] != [];
      hide AreGroups;
      if item.1.groupId.Some? && count > 0 && LastOf(groups).groupId == item.1.groupId {
        GrowLast(items[..i], groups, item);
        groups := groups[..count - 1] + [groups[count - 1] + [item]];
      } else {
        AddGroup(items[..i], groups, item);
        groups := groups + [[item]];
      }
      i := i + 1;
    }
    assert items[..i] == items;
  }

  /** The ordinary messages with their places. */
  ghost predicate Listed(messages: seq<ChatMessage>, items: seq<Indexed>) {
    && (forall k :: 0 <= k < |items| ==>
        items[k].0 < |messages| && messages[items[k].0] == items[k].1 && !IsMarker(items[k].1))
    && (forall j, k :: 0 <= j < k < |items| ==> items[j].0 < items[k].0)
    && (forall i :: 0 <= i < |messages| && !IsMarker(messages[i]) ==> exists k :: 0 <= k < |items| && items[k].0 == i)
  }

  method ListOrdinary(messages: seq<ChatMessage>) returns (items: seq<Indexed>)
    ensures Listed(messages, items) && Plain(items) == Ordinary(messages)
  {
    hide *;
    items := [];
    var i := 0;
    NothingListed(messages);
    while i < |messages|
      invariant 0 <= i <= |messages|
      invariant Listed(messages[..i], items)
      invariant Plain(items) + Ordinary(messages[i..]) == Ordinary(messages)
    {
      var m := messages[i];
      OrdinaryAt(messages, i);
      if !IsMarker(m) {
        ListedMore(messages, i, items);
        PlainMore(items, (i, m), Ordinary(messages[i + 1..]));
        items := items + [(i, m)];
      } else {
        ListedPast(messages, i, items);
      }
      i := i + 1;
    }
    AllListed(messages, items);
  }

  lemma NothingListed(messages: seq<ChatMessage>)
    ensures Listed(messages[..0], []) && Plain([]) + Ordinary(messages[0..]) == Ordinary(messages)
  {
    hide Ordinary;
    assert messages[0..] == messages;
  }

  lemma AllListed(messages: seq<ChatMessage>, items: seq<Indexed>)
    ensures messages[..|messages|] == messages
    ensures Plain(items) + Ordinary(messages[|messages|..]) == Plain(items)
  {
    assert messages[|messages|..] == [] && Ordinary([]) == [];
    hide Ordinary;
    assert Plain(items) + [] == Plain(items);
  }

  lemma OrdinaryAt(messages: seq<ChatMessage>, i: nat)
    requires i < |messages|
    ensures Ordinary(messages[i..])
         == if IsMarker(messages[i]) then Ordinary(messages[i + 1..]) else [messages[i]] + Ordinary(messages[i + 1..])
  {
    assert messages[i..] == [messages[i]] + messages[i + 1..];
    SplitFirst(messages[i], messages[i + 1..], 0);
  }

  lemma PlainMore(items: seq<Indexed>, item: Indexed, rest: seq<ChatMessage>)
    ensures Plain(items + [item]) + rest == Plain(items) + ([item.1] + rest)
  {
    assert Plain(items + [item]) == Plain(items) + [item.1];
  }

  lemma ListedMore(messages: seq<ChatMessage>, i: nat, items: seq<Indexed>)
    requires i < |messages| && !IsMarker(messages[i]) && Listed(messages[..i], items)
    ensures Listed(messages[..i + 1], items + [(i, messages[i])])
  {
    var after, cut := items + [(i, messages[i])], messages[..i + 1];
    hide IsMarker;
    forall j | 0 <= j < i + 1 && !IsMarker(cut[j]) ensures exists k :: 0 <= k < |after| && after[k].0 == j {
      if j < i {
        assert !IsMarker(messages[..i][j]);
        var k :| 0 <= k < |items| && items[k].0 == j;
        assert after[k].0 == j;
      } else {
        assert after[|items|].0 == j;
      }
    }
  }

  lemma ListedPast(messages: seq<ChatMessage>, i: nat, items: seq<Indexed>)
    requires i < |messages| && IsMarker(messages[i]) && Listed(messages[..i], items)
    ensures Listed(messages[..i + 1], items)
  {
    hide IsMarker;
    var cut := messages[..i + 1];
    forall j | 0 <= j < i + 1 && !IsMarker(cut[j]) ensures exists k :: 0 <= k < |items| && items[k].0 == j {
      assert !IsMarker(messages[..i][j]);
    }
  }

  lemma {:induction false} TokensJoin(f: Floors, a: seq<ChatMessage>, b: seq<ChatMessage>)
    ensures Tokens(f, a + b) == Tokens(f, a) + Tokens(f, b)
  {
    if a == [] {
      assert a + b == b;
    } else {
      assert (a + b)[1..] == a[1..] + b;
      TokensJoin(f, a[1..], b);
    }
  }

  lemma TokensOfOne(f: Floors, m: ChatMessage)
    ensures Tokens(f, [m]) == f.estimate(m)
  {
    assert [m][1..] == [];
  }

  /** `sum` over the messages of a group. */
  method SumTokens(f: Floors, group: seq<Indexed>) returns (sum: nat)
    ensures sum == Tokens(f, Plain(group))
  {
    sum := 0;
    var i := 0;
    while i < |group|
      invariant 0 <= i <= |group|
      invariant sum == Tokens(f, Plain(group[..i]))
    {
      assert Plain(group[..i + 1]) == Plain(group[..i]) + [group[i].1];
      TokensJoin(f, Plain(group[..i]), [group[i].1]);
      TokensOfOne(f, group[i].1);
      sum := sum + f.estimate(group[i].1);
      i := i + 1;
    }
    assert group[..i] == group;
  }

  lemma {:induction false} FlatPrefix(groups: seq<seq<Indexed>>, g: nat)
    requires g <= |groups|
    ensures Flat(groups[..g]) <= Flat(groups)
    decreases |groups|
  {
    if g < |groups| {
      assert groups[..|groups| - 1][..g] == groups[..g];
      FlatPrefix(groups[..|groups| - 1], g);
    } else {
      assert groups[..g] == groups;
    }
  }

  /** Where group `g` lies among the items. */
  lemma GroupPlace(items: seq<Indexed>, groups: seq<seq<Indexed>>, g: nat)
    requires Flat(groups) == items && g < |groups|
    ensures
      var p := |Flat(groups[..g])|;
      && Flat(groups[..g + 1]) == Flat(groups[..g]) + groups[g]
      && p + |groups[g]| == |Flat(groups[..g + 1])| <= |items| && items[p..p + |groups[g]|] == groups[g]
  {
    assert groups[..g + 1][..g] == groups[..g];
    FlatPrefix(groups, g + 1);
  }

  /** The starts of the groups are the boundaries. */
  lemma GroupBoundaries(items: seq<Indexed>, groups: seq<seq<Indexed>>, g: nat, i: nat)
    requires AreGroups(items, groups) && g < |groups|
    requires |Flat(groups[..g])| <= i < |Flat(groups[..g + 1])|
    ensures i < |items| && (IsBoundary(Plain(items), i) <==> i == |Flat(groups[..g])|)
  {
    hide Flat, OneGroup, Apart, IsBoundary, Plain;
    var p := |Flat(groups[..g])|;
    GroupPlace(items, groups, g);
    if i > p {
      hide AreGroups;
      assert OneGroup(Plain(groups[g])) by { GroupsApart(items, groups, g); }
      InsideGroup(items, groups[g], p, i);
    } else if g > 0 {
      GroupPlace(items, groups, g - 1);
      GroupsApart(items, groups, g);
      GroupStart(items, groups[g - 1], groups[g], p);
    } else {
      NoGroups(groups);
      FirstBoundary(items);
    }
  }

  lemma GroupsApart(items: seq<Indexed>, groups: seq<seq<Indexed>>, g: nat)
    requires AreGroups(items, groups) && g < |groups|
    ensures groups[g] != [] && OneGroup(Plain(groups[g]))
    ensures g > 0 ==> groups[g - 1] != [] && Apart(Plain(groups[g - 1]), Plain(groups[g]))
  {
    hide Flat, OneGroup, Apart, Plain;
  }

  lemma NoGroups(groups: seq<seq<Indexed>>)
    ensures Flat(groups[..0]) == []
  {
  }

  lemma FirstBoundary(items: seq<Indexed>)
    ensures IsBoundary(Plain(items), 0)
  {
  }

  /** No boundary lies inside a group. */
  lemma InsideGroup(items: seq<Indexed>, group: seq<Indexed>, p: nat, i: nat)
    requires p < i < p + |group| <= |items| && items[p..p + |group|] == group && OneGroup(Plain(group))
    ensures !IsBoundary(Plain(items), i)
  {
    assert group[i - p] == items[i] && group[i - 1 - p] == items[i - 1];
    assert Plain(group)[i - p] == items[i].1 && Plain(group)[i - 1 - p] == items[i - 1].1;
  }

  /** A group starts at a boundary. */
  lemma GroupStart(items: seq<Indexed>, last: seq<Indexed>, group: seq<Indexed>, p: nat)
    requires last != [] && group != [] && |last| <= p && p + |group| <= |items| && Apart(Plain(last), Plain(group))
    requires items[p - |last|..p] == last && items[p..p + |group|] == group
    ensures IsBoundary(Plain(items), p)
  {
    assert last[|last| - 1] == items[p - 1] && group[0] == items[p];
    assert Plain(last)[|last| - 1] == items[p - 1].1 && Plain(group)[0] == items[p].1;
  }

  function Reversed(selected: seq<seq<Indexed>>): seq<Indexed> {
    if selected == [] then [] else selected[|selected| - 1] + Reversed(selected[..|selected| - 1])
  }

  /** No boundary after `p` meets both floors. */
  predicate NoneAfter(f: Floors, messages: seq<ChatMessage>, p: nat) {
    forall q :: p < q <= |messages| && IsBoundary(messages, q) ==> !Meets(f, messages[q..])
  }

  /** Taking one more group moves the start to the previous boundary. */
  lemma OneMoreGroup(f: Floors, items: seq<Indexed>, groups: seq<seq<Indexed>>, g: nat) returns (p: nat)
    requires AreGroups(items, groups) && g < |groups|
    requires |Flat(groups[..g + 1])| <= |items| && NoneAfter(f, Plain(items), |Flat(groups[..g + 1])|)
    requires !Meets(f, Plain(items)[|Flat(groups[..g + 1])|..])
    ensures p == |Flat(groups[..g])| <= |items|
    ensures items[p..] == groups[g] + items[|Flat(groups[..g + 1])|..]
    ensures Plain(items)[p..] == Plain(groups[g]) + Plain(items)[|Flat(groups[..g + 1])|..]
    ensures IsBoundary(Plain(items), p) && NoneAfter(f, Plain(items), p)
  {
    hide AreGroups, Flat, Meets, IsBoundary, Plain;
    p := |Flat(groups[..g])|;
    var all, end := Plain(items), |Flat(groups[..g + 1])|;
    GroupsFlat(items, groups);
    GroupPlace(items, groups, g);
    GroupBoundaries(items, groups, g, p);
    PlainSplit(items, groups[g], p, end);
    forall q | p < q <= |all| && IsBoundary(all, q) ensures !Meets(f, all[q..]) {
      if q < end { GroupBoundaries(items, groups, g, q); }
    }
  }

  lemma GroupsFlat(items: seq<Indexed>, groups: seq<seq<Indexed>>)
    requires AreGroups(items, groups)
    ensures Flat(groups) == items && forall g :: 0 <= g < |groups| ==> groups[g] != []
  {
    hide Flat;
  }

  lemma PlainSplit(items: seq<Indexed>, group: seq<Indexed>, p: nat, end: nat)
    requires p <= end <= |items| && items[p..end] == group
    ensures items[p..] == group + items[end..] && Plain(items)[p..] == Plain(group) + Plain(items)[end..]
  {
  }

  /** The walk over the groups from the last one. */
  method RecentGroups(f: Floors, items: seq<Indexed>, groups: seq<seq<Indexed>>)
      returns (selected: seq<seq<Indexed>>)
    requires FloorsOk(f) && AreGroups(items, groups)
    ensures Reversed(selected) == items[RecentStart(f, Plain(items))..]
  {
    hide *;
    ghost var all := Plain(items);
    ghost var p := |items|;
    selected := [];
    var g, tokens, count := |groups|, 0, 0;
    GroupsFlat(items, groups);
    NothingRecent(f, all);
    NothingSelected(f);
    assert groups[..g] == groups && items[p..] == [] && all[p..] == [];
    while g > 0
      invariant 0 <= g <= |groups| && p == |Flat(groups[..g])| <= |items|
      invariant Reversed(selected) == items[p..]
      invariant tokens == Tokens(f, all[p..]) && count == |items| - p
      invariant IsBoundary(all, p) && NoneAfter(f, all, p)
    {
      if tokens >= f.tokens && count >= f.messages {
        break;
      }
      var group := groups[g - 1];
      ghost var end := p;
      MeetsIff(f, all[end..], tokens, count);
      p := OneMoreGroup(f, items, groups, g - 1);
      TokensJoin(f, Plain(group), all[end..]);
      var sum := SumTokens(f, group);
      ReversedMore(selected, group);
      selected, count, tokens, g := selected + [group], count + |group|, tokens + sum, g - 1;
    }
    NoGroups(groups);
    WalkStops(f, all, p, tokens, count);
  }

  lemma NothingSelected(f: Floors)
    ensures Reversed([]) == [] && Tokens(f, []) == 0
  {
  }

  lemma MeetsIff(f: Floors, messages: seq<ChatMessage>, tokens: nat, count: nat)
    requires tokens == Tokens(f, messages) && count == |messages|
    ensures Meets(f, messages) <==> tokens >= f.tokens && count >= f.messages
  {
    hide Tokens;
  }

  lemma ReversedMore(selected: seq<seq<Indexed>>, group: seq<Indexed>)
    ensures Reversed(selected + [group]) == group + Reversed(selected)
  {
    assert (selected + [group])[..|selected|] == selected;
  }

  lemma NothingRecent(f: Floors, all: seq<ChatMessage>)
    ensures IsBoundary(all, |all|) && NoneAfter(f, all, |all|)
  {
  }

  /** The walk stopped where both floors are met, or at the start. */
  lemma WalkStops(f: Floors, all: seq<ChatMessage>, p: nat, tokens: nat, count: nat)
    requires FloorsOk(f) && p <= |all| && IsBoundary(all, p) && NoneAfter(f, all, p)
    requires tokens == Tokens(f, all[p..]) && count == |all| - p
    requires p == 0 || (tokens >= f.tokens && count >= f.messages)
    ensures p == RecentStart(f, all)
  {
    hide Tokens, IsBoundary, RecentStart;
    RecentStartUnique(f, all, p);
  }

  method Places(selected: seq<seq<Indexed>>) returns (places: set<nat>)
    ensures places == set k | 0 <= k < |Reversed(selected)| :: Reversed(selected)[k].0
  {
    places := {};
    var g := 0;
    while g < |selected|
      invariant 0 <= g <= |selected|
      invariant places == PlacesOf(Reversed(selected[..g]))
    {
      assert selected[..g + 1][..g] == selected[..g];
      PlacesJoin(selected[g], Reversed(selected[..g]));
      places := places + PlacesOf(selected[g]);
      g := g + 1;
    }
    assert selected[..g] == selected;
  }

  function PlacesOf(items: seq<Indexed>): set<nat> {
    set k | 0 <= k < |items| :: items[k].0
  }

  lemma PlacesJoin(a: seq<Indexed>, b: seq<Indexed>)
    ensures PlacesOf(a + b) == PlacesOf(a) + PlacesOf(b)
  {
    var all := a + b;
    forall x | x in PlacesOf(a) + PlacesOf(b) ensures x in PlacesOf(all) {
      if x in PlacesOf(a) {
        var k :| 0 <= k < |a| && a[k].0 == x;
        assert all[k].0 == x;
      } else {
        var k :| 0 <= k < |b| && b[k].0 == x;
        assert all[|a| + k].0 == x;
      }
    }
  }

  method SelectRecent(f: Floors, messages: seq<ChatMessage>) returns (s: Selection)
    requires FloorsOk(f)
    ensures s == Select(f, messages)
  {
    var ordinary := ListOrdinary(messages);
    var groups := AtomicGroups(ordinary);
    var selected := RecentGroups(f, ordinary, groups);
    ghost var p := RecentStart(f, Plain(ordinary));
    var places := Places(selected);
    var recent := RecentMessages(ordinary, places, p);
    var earlyPlaces := set k | 0 <= k < |ordinary| && ordinary[k].0 !in places :: ordinary[k].0;
    EarlyPlacesAre(messages, ordinary, places, p);
    var canCompact := earlyPlaces != {};
    assert canCompact <==> p > 0 by {
      if p > 0 { assert ordinary[0].0 in PlacesOf(ordinary[..p]) by { assert ordinary[..p][0] == ordinary[0]; } }
    }
    var early := [];
    if canCompact {
      early := EarlyMessages(messages, earlyPlaces, ordinary, p);
    }
    return Selection(early, recent, canCompact);
  }

  lemma PlaceInRest(items: seq<Indexed>, p: nat, k: nat)
    requires forall i, j :: 0 <= i < j < |items| ==> items[i].0 < items[j].0
    requires p <= |items| && k < |items|
    ensures items[k].0 in PlacesOf(items[p..]) <==> k >= p
  {
    if k >= p {
      assert items[p..][k - p] == items[k];
    } else {
      forall j | 0 <= j < |items[p..]| ensures items[p..][j].0 != items[k].0 {
        assert items[p..][j] == items[p + j];
      }
    }
  }

  lemma EarlyPlacesAre(messages: seq<ChatMessage>, items: seq<Indexed>, places: set<nat>, p: nat)
    requires Listed(messages, items) && p <= |items| && places == PlacesOf(items[p..])
    ensures (set k | 0 <= k < |items| && items[k].0 !in places :: items[k].0) == PlacesOf(items[..p])
  {
    forall k | 0 <= k < |items| ensures items[k].0 in places <==> k >= p {
      PlaceInRest(items, p, k);
    }
    forall k | 0 <= k < p ensures items[k].0 in PlacesOf(items[..p]) {
      assert items[..p][k] == items[k];
    }
  }

  method RecentMessages(items: seq<Indexed>, places: set<nat>, ghost p: nat) returns (recent: seq<ChatMessage>)
    requires p <= |items| && places == PlacesOf(items[p..])
    requires forall j, k :: 0 <= j < k < |items| ==> items[j].0 < items[k].0
    ensures recent == Plain(items)[p..]
  {
    hide *;
    recent := [];
    var i := 0;
    PlainRange(items, p, 0);
    while i < |items|
      invariant 0 <= i <= |items|
      invariant recent == PlainFrom(items, p, i)
    {
      PlaceInRest(items, p, i);
      PlainRange(items, p, i);
      if items[i].0 in places {
        recent := recent + [items[i].1];
      }
      i := i + 1;
    }
    PlainWhole(items, p);
  }

  /** The messages from place `p` to `i` of a list. */
  function PlainFrom(items: seq<Indexed>, p: nat, i: nat): seq<ChatMessage>
    requires i <= |items|
  {
    if p <= i then Plain(items)[p..i] else []
  }

  lemma PlainRange(items: seq<Indexed>, p: nat, i: nat)
    requires i <= |items|
    ensures i == 0 ==> PlainFrom(items, p, i) == []
    ensures i < |items| ==> PlainFrom(items, p, i + 1) == PlainFrom(items, p, i) + if i >= p then [items[i].1] else []
  {
  }

  lemma PlainWhole(items: seq<Indexed>, p: nat)
    requires p <= |items|
    ensures PlainFrom(items, p, |items|) == Plain(items)[p..]
  {
  }

  /** The markers and the early ordinary messages, in order. */
  method EarlyMessages(messages: seq<ChatMessage>, places: set<nat>, ghost items: seq<Indexed>, ghost p: nat)
      returns (early: seq<ChatMessage>)
    requires Listed(messages, items) && p <= |items| && places == PlacesOf(items[..p])
    ensures early == Early(messages, p)
  {
    hide *;
    early := [];
    var i := 0;
    ghost var k := 0;
    EarlyEnds(messages, items, p);
    while i < |messages|
      invariant 0 <= i <= |messages| && 0 <= k <= |items|
      invariant Upto(items, k, i)
      invariant early + Early(messages[i..], if k < p then p - k else 0) == Early(messages, p)
    {
      var m := messages[i];
      EarlyStep(messages, items, p, i, k, early);
      if i in places || IsMarker(m) {
        early := early + [m];
      }
      if !IsMarker(m) { k := k + 1; }
      i := i + 1;
    }
    NothingMoreEarly(early, messages, if k < p then p - k else 0);
  }

  lemma EarlyEnds(messages: seq<ChatMessage>, items: seq<Indexed>, p: nat)
    requires Listed(messages, items)
    ensures Upto(items, 0, 0) && [] + Early(messages[0..], p) == Early(messages, p)
  {
    hide Early, IsMarker;
    assert messages[0..] == messages;
  }

  lemma NothingMoreEarly(early: seq<ChatMessage>, messages: seq<ChatMessage>, n: nat)
    ensures early + Early(messages[|messages|..], n) == early
  {
    assert messages[|messages|..] == [] && early + [] == early;
  }

  lemma EarlyAt(messages: seq<ChatMessage>, i: nat, n: nat)
    requires i < |messages|
    ensures Early(messages[i..], n)
         == (if IsMarker(messages[i]) then [messages[i]] + Early(messages[i + 1..], n)
             else if n > 0 then [messages[i]] + Early(messages[i + 1..], n - 1)
             else Early(messages[i + 1..], 0))
  {
    assert messages[i..] == [messages[i]] + messages[i + 1..];
    SplitFirst(messages[i], messages[i + 1..], n);
  }

  /** The first `k` items are those of the places below `i`. */
  predicate Upto(items: seq<Indexed>, k: nat, i: nat) {
    forall j :: 0 <= j < |items| ==> (j < k <==> items[j].0 < i)
  }

  lemma EarlyStep(messages: seq<ChatMessage>, items: seq<Indexed>, p: nat, i: nat, k: nat, early: seq<ChatMessage>)
    requires Listed(messages, items) && p <= |items| && i < |messages| && k <= |items| && Upto(items, k, i)
    ensures
      var m := messages[i];
      var next := if IsMarker(m) then k else k + 1;
      && next <= |items| && Upto(items, next, i + 1)
      && early + Early(messages[i..], if k < p then p - k else 0)
         == (if i in PlacesOf(items[..p]) || IsMarker(m) then early + [m] else early)
            + Early(messages[i + 1..], if next < p then p - next else 0)
  {
    hide *;
    EarlyAt(messages, i, if k < p then p - k else 0);
    PlaceOf(messages, items, p, i, k);
  }

  lemma PlaceOf(messages: seq<ChatMessage>, items: seq<Indexed>, p: nat, i: nat, k: nat)
    requires Listed(messages, items) && p <= |items| && i < |messages| && k <= |items| && Upto(items, k, i)
    ensures !IsMarker(messages[i]) ==>
        k < |items| && (i in PlacesOf(items[..p]) <==> k < p) && Upto(items, k + 1, i + 1)
    ensures IsMarker(messages[i]) ==> i !in PlacesOf(items[..p]) && Upto(items, k, i + 1)
  {
    hide IsMarker;
    if !IsMarker(messages[i]) {
      var j :| 0 <= j < |items| && items[j].0 == i;
      assert k <= j && items[k].0 <= items[j].0;
      PlaceInPrefix(items, p, i, k);
    } else {
      forall q | 0 <= q < p ensures items[..p][q].0 != i { assert items[..p][q] == items[q]; }
    }
  }

  lemma PlaceInPrefix(items: seq<Indexed>, p: nat, i: nat, k: nat)
    requires p <= |items| && k < |items| && items[k].0 == i
    requires forall j :: 0 <= j < |items| && items[j].0 == i ==> j == k
    ensures i in PlacesOf(items[..p]) <==> k < p
  {
    if k < p { assert items[..p][k].0 == i; }
  }

  // --- Compaction ------------------------------------------------------------------------------

  /** Both messages that stand for the early part. */
  function Head(formal: string, boundary: string): seq<ChatMessage> {
    [ChatMessage("system", Str(formal), Summary, None), ChatMessage("system", Str(boundary), Boundary, None)]
  }

  /** `compact` when the summary was produced: `formal` is its text. */
  function Compacted(f: Floors, messages: seq<ChatMessage>, formal: string, boundary: string): seq<ChatMessage> {
    var s := Select(f, messages);
    if s.canCompact then Head(formal, boundary) + s.recent else messages
  }

  /** The markers of a history stand at its head and belong to no group. */
  predicate MarkersAtHead(messages: seq<ChatMessage>) {
    && (forall i, j :: 0 <= i < j < |messages| && IsMarker(messages[j]) ==> IsMarker(messages[i]))
    && (forall i :: 0 <= i < |messages| && IsMarker(messages[i]) ==> messages[i].groupId.None?)
  }

  lemma {:induction false} OrdinaryIsTail(messages: seq<ChatMessage>) returns (k: nat)
    requires MarkersAtHead(messages)
    ensures k <= |messages| && Ordinary(messages) == messages[k..]
    ensures forall i :: 0 <= i < |messages| ==> (i < k <==> IsMarker(messages[i]))
  {
    if messages == [] || !IsMarker(messages[0]) {
      k := 0;
      AllOrdinary(messages);
      assert messages[0..] == messages;
    } else {
      var tail := messages[1..];
      assert MarkersAtHead(tail) by {
        forall i, j | 0 <= i < j < |tail| && IsMarker(tail[j]) ensures IsMarker(tail[i]) {
          assert IsMarker(messages[j + 1]);
        }
      }
      k := OrdinaryIsTail(tail);
      k := k + 1;
      assert messages[k..] == tail[k - 1..];
    }
  }

  lemma {:induction false} AllOrdinary(messages: seq<ChatMessage>)
    requires forall i :: 0 <= i < |messages| ==> !IsMarker(messages[i])
    ensures Ordinary(messages) == messages
  {
    if messages != [] { AllOrdinary(messages[1..]); }
  }

  /** A compacted history has its markers at its head and its recent messages as ordinary ones. */
  lemma CompactedShape(f: Floors, messages: seq<ChatMessage>, formal: string, boundary: string)
    requires Select(f, messages).canCompact
    ensures
      var c := Compacted(f, messages, formal, boundary);
      && MarkersAtHead(c) && Ordinary(c) == Select(f, messages).recent
      && c == [ChatMessage("system", Str(formal), Summary, None), ChatMessage("system", Str(boundary), Boundary, None)]
           + Select(f, messages).recent
  {
    assert Head(formal, boundary)
        == [ChatMessage("system", Str(formal), Summary, None), ChatMessage("system", Str(boundary), Boundary, None)];
    HeadShape(formal, boundary, Select(f, messages).recent);
    hide RecentStart, Head, Early, MarkersAtHead, IsMarker;
  }

  lemma HeadShape(formal: string, boundary: string, recent: seq<ChatMessage>)
    requires forall i :: 0 <= i < |recent| ==> !IsMarker(recent[i])
    ensures MarkersAtHead(Head(formal, boundary) + recent) && Ordinary(Head(formal, boundary) + recent) == recent
  {
    var summary, mark := Head(formal, boundary)[0], Head(formal, boundary)[1];
    assert Head(formal, boundary) == [summary, mark] && IsMarker(summary) && IsMarker(mark);
    assert summary.groupId.None? && mark.groupId.None?;
    hide *;
    TwoMarkers(summary, mark, recent);
    MarkersFirst(summary, mark, recent);
  }

  lemma TwoMarkers(summary: ChatMessage, mark: ChatMessage, recent: seq<ChatMessage>)
    requires IsMarker(summary) && IsMarker(mark) && forall i :: 0 <= i < |recent| ==> !IsMarker(recent[i])
    ensures Ordinary([summary, mark] + recent) == recent
  {
    hide *;
    AllOrdinary(recent);
    OneMarker(mark, recent);
    OneMarker(summary, [mark] + recent);
    assert [summary, mark] + recent == [summary] + ([mark] + recent);
  }

  lemma OneMarker(mark: ChatMessage, rest: seq<ChatMessage>)
    requires IsMarker(mark)
    ensures Ordinary([mark] + rest) == Ordinary(rest)
  {
    hide *;
    SplitFirst(mark, rest, 0);
  }

  lemma MarkersFirst(summary: ChatMessage, mark: ChatMessage, recent: seq<ChatMessage>)
    requires IsMarker(summary) && IsMarker(mark) && summary.groupId.None? && mark.groupId.None?
    requires forall i :: 0 <= i < |recent| ==> !IsMarker(recent[i])
    ensures MarkersAtHead([summary, mark] + recent)
  {
    hide IsMarker;
    var all := [summary, mark] + recent;
    assert all[0] == summary && all[1] == mark && forall i :: 2 <= i < |all| ==> all[i] == recent[i - 2];
  }

  /** Compaction keeps a history paired. */
  lemma CompactionKeepsPairing(f: Floors, messages: seq<ChatMessage>, formal: string, boundary: string)
    requires FloorsOk(f) && Paired(messages) && MarkersAtHead(messages)
    ensures Paired(Compacted(f, messages, formal, boundary)) && MarkersAtHead(Compacted(f, messages, formal, boundary))
  {
    var s := Select(f, messages);
    if s.canCompact {
      CompactedShape(f, messages, formal, boundary);
      OrdinaryPaired(messages);
      var ordinary, head := Ordinary(messages), Head(formal, boundary);
      StartIsRecent(f, ordinary);
      SuffixPaired(ordinary, RecentStart(f, ordinary));
      PlainPaired(head);
      hide Paired, ValidPrefix, Ordinary, RecentStart;
      assert IsBoundary(head + s.recent, |head|);
      JoinPaired(head, s.recent);
    }
  }

  lemma OrdinaryPaired(messages: seq<ChatMessage>)
    requires Paired(messages) && MarkersAtHead(messages)
    ensures Paired(Ordinary(messages))
  {
    var k := OrdinaryIsTail(messages);
    HeadIsApart(messages, k);
    SuffixPaired(messages, k);
  }

  lemma SuffixPaired(messages: seq<ChatMessage>, p: nat)
    requires Paired(messages) && p <= |messages| && IsBoundary(messages, p)
    ensures Paired(messages[p..])
  {
    CutPrefix(messages, p);
  }

  lemma HeadIsApart(messages: seq<ChatMessage>, k: nat)
    requires MarkersAtHead(messages) && k <= |messages| && (forall i :: 0 <= i < k ==> IsMarker(messages[i]))
    ensures IsBoundary(messages, k)
  {
    hide IsMarker;
  }

  /** Compacting a compacted history changes nothing, whatever a new summary would say. */
  lemma CompactionIsFixedPoint(f: Floors, messages: seq<ChatMessage>, formal: string, boundary: string, again: string)
    requires FloorsOk(f) && Select(f, messages).canCompact
    ensures
      var c := Compacted(f, messages, formal, boundary);
      !Select(f, c).canCompact && Compacted(f, c, again, boundary) == c
  {
    var c := Compacted(f, messages, formal, boundary);
    CompactedShape(f, messages, formal, boundary);
    RecentOfRecent(f, Ordinary(messages));
    assert Ordinary(c) == Ordinary(messages)[RecentStart(f, Ordinary(messages))..] by {
      hide Ordinary, RecentStart, Compacted;
    }
    NothingEarly(f, c, again, boundary);
  }

  /** The recent part is recent as a whole. */
  lemma RecentOfRecent(f: Floors, ordinary: seq<ChatMessage>)
    requires FloorsOk(f)
    ensures RecentStart(f, ordinary[RecentStart(f, ordinary)..]) == 0
  {
    hide RecentStart, Meets;
    StartIsRecent(f, ordinary);
    var p := RecentStart(f, ordinary);
    var recent := ordinary[p..];
    forall q | 0 < q <= |recent| && IsBoundary(recent, q) ensures !Meets(f, recent[q..]) {
      TailBoundary(ordinary, p, p + q);
      assert recent[q..] == ordinary[p + q..];
    }
    RecentStartUnique(f, recent, 0);
  }

  lemma NothingEarly(f: Floors, messages: seq<ChatMessage>, formal: string, boundary: string)
    requires RecentStart(f, Ordinary(messages)) == 0
    ensures !Select(f, messages).canCompact && Compacted(f, messages, formal, boundary) == messages
  {
    hide RecentStart, Ordinary, Early;
  }
}
