/**
  Token estimates of texts and the previews cut to a token budget
  (`src/mewcode/context/estimator.py`, `_preview_parts` in `src/mewcode/context/tool_results.py`).
*/
module TokenBudget {

  /** A character beyond ASCII counts as four. */
  function Weight(c: char): (w: nat)
    ensures 1 <= w <= 4
  {
    if c as int < 128 then 1 else 4
  }

  function Weighted(s: string): nat {
    if s == "" then 0 else Weight(s[0]) + Weighted(s[1..])
  }

  /** `estimate_text_tokens`. */
  function Tokens(s: string): nat {
    (Weighted(s) + 3) / 4
  }

  /** The longest prefix within `room`. */
  function Prefix(s: string, room: nat): (p: string)
    ensures p <= s
  {
    if s == "" || Weight(s[0]) > room then "" else [s[0]] + Prefix(s[1..], room - Weight(s[0]))
  }

  /** The longest suffix within `room`. */
  function Suffix(s: string, room: nat): (p: string)
    ensures |p| <= |s| && p == s[|s| - |p|..]
  {
    if s == "" || Weight(s[|s| - 1]) > room then ""
    else
      var p := Suffix(s[..|s| - 1], room - Weight(s[|s| - 1]));
      assert s[|s| - |p| - 1..] == s[..|s| - 1][|s| - 1 - |p|..] + [s[|s| - 1]];
      p + [s[|s| - 1]]
  }

  function TakePrefix(s: string, budget: int): (p: string)
    ensures |p| <= |s| && p == s[..|p|]
  {
    if budget <= 0 then "" else Prefix(s, 4 * budget)
  }

  function TakeSuffix(s: string, budget: int): (p: string)
    ensures |p| <= |s| && p == s[|s| - |p|..]
  {
    if budget <= 0 then "" else Suffix(s, 4 * budget)
  }

  /** A text is estimated at a quarter of its weight, rounded up: plain characters weigh one, any other four. */
  lemma {:induction false} TokensAre(s: string)
    ensures var t := Tokens(s); 4 * t >= Weighted(s) && (t > 0 ==> 4 * (t - 1) < Weighted(s))
    ensures (forall i :: 0 <= i < |s| ==> s[i] as int < 128) ==> Weighted(s) == |s|
    ensures (forall i :: 0 <= i < |s| ==> s[i] as int >= 128) ==> Weighted(s) == 4 * |s|
    ensures forall a, b :: s == a + b ==> Weighted(s) == Weighted(a) + Weighted(b)
  {
    if s != "" { TokensAre(s[1..]); }
    forall a, b | s == a + b ensures Weighted(s) == Weighted(a) + Weighted(b) { WeightedJoin(a, b); }
  }

  // --- The loops ------------------------------------------------------------------------

  lemma {:induction false} WeightedJoin(a: string, b: string)
    ensures Weighted(a + b) == Weighted(a) + Weighted(b)
  {
    if a == "" {
      assert a + b == b;
    } else {
      assert (a + b)[1..] == a[1..] + b;
      WeightedJoin(a[1..], b);
    }
  }

  lemma {:induction false} PrefixIs(s: string, room: nat, n: nat)
    requires n <= |s| && Weighted(s[..n]) <= room && (n < |s| ==> Weighted(s[..n]) + Weight(s[n]) > room)
    ensures Prefix(s, room) == s[..n]
  {
    if n > 0 {
      assert s[..n][1..] == s[1..][..n - 1];
      PrefixIs(s[1..], room - Weight(s[0]), n - 1);
    }
  }

  lemma SuffixIs(s: string, room: nat, n: nat)
    requires n <= |s| && Weighted(s[n..]) <= room && (n > 0 ==> Weight(s[n - 1]) + Weighted(s[n..]) > room)
    ensures Suffix(s, room) == s[n..]
  {
    hide *;
    SuffixLength(s, room, n);
  }

  lemma {:induction false} SuffixLength(s: string, room: nat, n: nat)
    requires n <= |s| && Weighted(s[n..]) <= room && (n > 0 ==> Weight(s[n - 1]) + Weighted(s[n..]) > room)
    ensures |Suffix(s, room)| == |s| - n
  {
    hide *;
    if n < |s| {
      var last, init := s[|s| - 1], s[..|s| - 1];
      assert s[n..] == init[n..] + [last];
      WeightedJoin(init[n..], [last]);
      WeightOfOne(last);
      assert n > 0 ==> init[n - 1] == s[n - 1];
      SuffixLength(init, room - Weight(last), n);
      SuffixGrows(s, room);
    } else {
      assert s[n..] == "";
      SuffixStops(s, room);
    }
  }

  lemma SuffixGrows(s: string, room: nat)
    requires s != "" && Weight(s[|s| - 1]) <= room
    ensures |Suffix(s, room)| == |Suffix(s[..|s| - 1], room - Weight(s[|s| - 1]))| + 1
  {
  }

  lemma WeightOfOne(c: char)
    ensures Weighted([c]) == Weight(c)
  {
    assert [c][1..] == "";
  }

  lemma SuffixStops(s: string, room: nat)
    requires s != "" ==> Weight(s[|s| - 1]) + Weighted("") > room
    ensures |Suffix(s, room)| == 0
  {
    hide Weight;
  }

  method TakePrefixLoop(text: string, tokenBudget: int) returns (p: string)
    ensures p == TakePrefix(text, tokenBudget)
  {
    if tokenBudget <= 0 {
      return "";
    }
    var remaining: int, end := tokenBudget * 4, 0;
    while end < |text|
      invariant 0 <= end <= |text|
      invariant remaining == 4 * tokenBudget - Weighted(text[..end]) >= 0
    {
      remaining := remaining - Weight(text[end]);
      end := end + 1;
      assert text[..end] == text[..end - 1] + [text[end - 1]];
      WeightedJoin(text[..end - 1], [text[end - 1]]);
      if remaining < 0 {
        PrefixIs(text, 4 * tokenBudget, end - 1);
        return text[..end - 1];
      }
    }
    PrefixIs(text, 4 * tokenBudget, end);
    return text[..end];
  }

  method TakeSuffixLoop(text: string, tokenBudget: int) returns (p: string)
    ensures p == TakeSuffix(text, tokenBudget)
  {
    if tokenBudget <= 0 {
      return "";
    }
    var remaining: int, start := tokenBudget * 4, |text|;
    assert text[start..] == "";
    while start > 0
      invariant 0 <= start <= |text|
      invariant remaining == 4 * tokenBudget - Weighted(text[start..]) >= 0
    {
      start := start - 1;
      remaining := remaining - Weight(text[start]);
      assert text[start..][1..] == text[start + 1..];
      if remaining < 0 {
        SuffixIs(text, 4 * tokenBudget, start + 1);
        return text[start + 1..];
      }
    }
    SuffixIs(text, 4 * tokenBudget, start);
    return text[start..];
  }

  // --- Budgets are met exactly --------------------------------------------------------------

  lemma {:induction false} PrefixWeight(s: string, room: nat)
    ensures Weighted(Prefix(s, room)) <= room
    ensures Prefix(s, room) != s ==> Weighted(Prefix(s, room)) + 3 >= room
  {
    if s != "" && Weight(s[0]) <= room {
      PrefixWeight(s[1..], room - Weight(s[0]));
      assert s == [s[0]] + s[1..];
    }
  }

  lemma {:induction false} SuffixWeight(s: string, room: nat)
    ensures Weighted(Suffix(s, room)) <= room
    ensures Suffix(s, room) != s ==> Weighted(Suffix(s, room)) + 3 >= room
  {
    if s != "" && Weight(s[|s| - 1]) <= room {
      var last, init := s[|s| - 1], s[..|s| - 1];
      SuffixNext(s, room);
      assert Weighted([last]) == Weight(last);
      SuffixWeight(init, room - Weight(last));
      hide Suffix, Weighted, Weight;
      WeightedJoin(Suffix(init, room - Weight(last)), [last]);
      assert s == init + [last];
    }
  }

  lemma SuffixNext(s: string, room: nat)
    requires s != "" && Weight(s[|s| - 1]) <= room
    ensures Suffix(s, room) == Suffix(s[..|s| - 1], room - Weight(s[|s| - 1])) + [s[|s| - 1]]
  {
  }

  /** A cut text uses its budget to the token; a text that fits is kept whole. */
  lemma TakenTokens(s: string, budget: nat)
    ensures Tokens(TakePrefix(s, budget)) <= budget && Tokens(TakeSuffix(s, budget)) <= budget
    ensures TakePrefix(s, budget) != s ==> Tokens(TakePrefix(s, budget)) == budget
    ensures TakeSuffix(s, budget) != s ==> Tokens(TakeSuffix(s, budget)) == budget
  {
    PrefixWeight(s, 4 * budget);
    SuffixWeight(s, 4 * budget);
  }

  // --- Previews -----------------------------------------------------------------------------------

  datatype Preview = Preview(head: string, tail: string)

  /** The head of the payload with half of the budget and the tail of the rest with the other half. */
  function PreviewParts(payload: string, budget: int): (p: Preview)
    ensures |p.head| + |p.tail| <= |payload|
  {
    if budget <= 0 then Preview("", "")
    else
      var head := TakePrefix(payload, budget / 2);
      Preview(head, TakeSuffix(payload[|head|..], budget - budget / 2))
  }

  predicate Covers(p: Preview, payload: string) {
    |p.head| + |p.tail| == |payload|
  }

  /** Both parts for given budgets. */
  lemma PartsMeetBudgets(payload: string, first: nat, second: nat)
    ensures
      var head := TakePrefix(payload, first);
      var tail := TakeSuffix(payload[|head|..], second);
      && |head| + |tail| <= |payload| && tail == payload[|payload| - |tail|..]
      && Tokens(head) <= first && Tokens(tail) <= second
      && (|head| + |tail| < |payload| ==> Tokens(head) == first && Tokens(tail) == second)
  {
    hide *;
    var head := TakePrefix(payload, first);
    var rest := payload[|head|..];
    var tail := TakeSuffix(rest, second);
    TakenTokens(payload, first);
    TakenTokens(rest, second);
    SuffixOfRest(payload, |head|, tail);
    var left := |payload| - |head|;
    assert |rest| == left;
    if |tail| < left {
      WholeIs(payload, head);
      WholeIs(rest, tail);
    }
  }

  lemma WholeIs(s: string, part: string)
    ensures s == part ==> |s| == |part|
  {
  }

  lemma SuffixOfRest(s: string, n: nat, tail: string)
    requires n <= |s| && |tail| <= |s[n..]| && tail == s[n..][|s[n..]| - |tail|..]
    ensures tail == s[|s| - |tail|..]
  {
  }

  /**
    A preview is a prefix and a suffix of the payload that do not overlap; it stays within the
    budget, and a preview that leaves something out uses the budget exactly.
  */
  lemma PreviewMeetsBudget(payload: string, budget: nat)
    ensures
      var p := PreviewParts(payload, budget);
      && p.head == payload[..|p.head|] && p.tail == payload[|payload| - |p.tail|..]
      && Tokens(p.head) + Tokens(p.tail) <= budget
      && (!Covers(p, payload) ==> Tokens(p.head) + Tokens(p.tail) == budget)
  {
    hide Tokens, TakePrefix, TakeSuffix;
    if budget == 0 {
      assert payload[|payload|..] == "" && payload[..0] == "";
      NoTokens();
    } else {
      var first := budget / 2;
      PartsMeetBudgets(payload, first, budget - first);
    }
  }

  lemma NoTokens()
    ensures Tokens("") == 0
  {
  }

  /**
    `_preview_parts`. Its two refills of an unused budget never take place: when something is
    left out nothing is unused.
  */
  method PreviewPartsLoop(payload: string, tokenBudget: int) returns (head: string, tail: string)
    ensures Preview(head, tail) == PreviewParts(payload, tokenBudget)
  {
    hide Tokens, TakePrefix, TakeSuffix, PreviewParts;
    PartsAre(payload, tokenBudget, tokenBudget / 2);
    if tokenBudget <= 0 {
      return "", "";
    }
    var headBudget := tokenBudget / 2;
    var tailBudget := tokenBudget - headBudget;
    head := TakePrefixLoop(payload, headBudget);
    tail := TakeSuffixLoop(payload[|head|..], tailBudget);
    PreviewMeetsBudget(payload, tokenBudget);
    var headTokens, tailTokens := Tokens(head), Tokens(tail);
    var unused := tokenBudget - headTokens - tailTokens;
    if unused > 0 && |head| + |tail| < |payload| {
      assert false;
    }
  }

  lemma PartsAre(payload: string, budget: int, half: int)
    requires half == budget / 2
    ensures budget <= 0 ==> PreviewParts(payload, budget) == Preview("", "")
    ensures budget > 0 ==>
      var head := TakePrefix(payload, half);
      PreviewParts(payload, budget) == Preview(head, TakeSuffix(payload[|head|..], budget - half))
  {
    hide TakePrefix, TakeSuffix;
  }
}
