/** Lists of identifiers without repetition. */
module IdLists {
  function Elements(ids: seq<string>): set<string> {
    set id | id in ids
  }

  predicate NoDuplicates(ids: seq<string>) {
    forall i, j :: 0 <= i < j < |ids| ==> ids[i] != ids[j]
  }

  lemma ElementsCons(id: string, rest: seq<string>)
    ensures Elements([id] + rest) == {id} + Elements(rest)
  {
  }

  lemma NoDuplicatesCons(id: string, rest: seq<string>)
    ensures NoDuplicates([id] + rest) <==> id !in rest && NoDuplicates(rest)
  {
    var ids := [id] + rest;
    if NoDuplicates(ids) {
      forall i, j | 0 <= i < j < |rest| ensures rest[i] != rest[j] {
        assert ids[i + 1] != ids[j + 1];
      }
      forall i | 0 <= i < |rest| ensures rest[i] != id {
        assert ids[0] != ids[i + 1];
      }
    }
  }

  /** The members of `ids` that are in `s`, in order. */
  function Keep(ids: seq<string>, s: set<string>): (kept: seq<string>)
    ensures Elements(kept) == Elements(ids) * s
    ensures |kept| <= |ids|
  {
    if ids == [] then []
    else
      var rest := Keep(ids[1..], s);
      assert Elements(ids) == {ids[0]} + Elements(ids[1..]);
      assert Elements([ids[0]] + rest) == {ids[0]} + Elements(rest);
      if ids[0] in s then [ids[0]] + rest else rest
  }

  /** Whatever stands before a member of `s` is in `t`. */
  predicate Before(ids: seq<string>, s: set<string>, t: set<string>) {
    forall i, j :: 0 <= i < j < |ids| && ids[j] in s ==> ids[i] in t
  }

  lemma {:induction false} KeepDistinct(ids: seq<string>, s: set<string>)
    requires NoDuplicates(ids)
    ensures NoDuplicates(Keep(ids, s))
  {
    if ids != [] {
      assert ids == [ids[0]] + ids[1..];
      NoDuplicatesCons(ids[0], ids[1..]);
      KeepDistinct(ids[1..], s);
      NoDuplicatesCons(ids[0], Keep(ids[1..], s));
      assert ids[0] !in Elements(Keep(ids[1..], s));
    }
  }

  lemma {:induction false} KeepMore(ids: seq<string>, id: string, s: set<string>)
    ensures Keep(ids + [id], s) == Keep(ids, s) + if id in s then [id] else []
  {
    if ids != [] {
      assert (ids + [id])[1..] == ids[1..] + [id];
      KeepMore(ids[1..], id, s);
    }
  }

  lemma {:induction false} KeepKeep(ids: seq<string>, s: set<string>, t: set<string>)
    ensures Keep(Keep(ids, s), t) == Keep(ids, s * t)
  {
    if ids != [] { KeepKeep(ids[1..], s, t); }
  }

  lemma {:induction false} KeepSame(ids: seq<string>, s: set<string>, t: set<string>)
    requires Elements(ids) * s == Elements(ids) * t
    ensures Keep(ids, s) == Keep(ids, t)
  {
    if ids != [] {
      assert Elements(ids) == {ids[0]} + Elements(ids[1..]);
      assert ids[0] in Elements(ids) * s <==> ids[0] in Elements(ids) * t;
      forall id | id in Elements(ids[1..]) ensures id in s <==> id in t {
        assert id in Elements(ids) * s <==> id in Elements(ids) * t;
      }
      KeepSame(ids[1..], s, t);
    }
  }

  lemma NoElements(ids: seq<string>)
    ensures Elements(ids) == {} <==> ids == []
  {
    if |ids| > 0 { assert ids[0] in Elements(ids); }
  }

  /** When no member of `t` stands before one of `s`, both together are kept one after the other. */
  lemma {:induction false} KeepJoin(ids: seq<string>, s: set<string>, t: set<string>)
    requires s !! t
    requires forall i, j :: 0 <= i < j < |ids| && ids[i] in t ==> ids[j] !in s
    ensures Keep(ids, s + t) == Keep(ids, s) + Keep(ids, t)
  {
    if ids != [] {
      KeepJoin(ids[1..], s, t);
      if ids[0] in t {
        forall id | id in Elements(ids[1..]) ensures id !in s {
          var j :| 0 <= j < |ids[1..]| && ids[1..][j] == id;
          assert ids[0] in t && ids[j + 1] == id;
        }
        assert Elements(Keep(ids[1..], s)) == {};
        NoElements(Keep(ids[1..], s));
      }
    }
  }

  /** A prefix of what is kept is kept by its own members, and what it passes over is outside `s`. */
  lemma {:induction false} PrefixOfKeep(ids: seq<string>, s: set<string>, n: nat)
    requires NoDuplicates(ids) && n <= |Keep(ids, s)|
    ensures
      var p := Keep(ids, s)[..n];
      p == Keep(ids, Elements(p))
      && forall i, j :: 0 <= i < j < |ids| && ids[j] in p ==> ids[i] in p || ids[i] !in s
  {
    var p := Keep(ids, s)[..n];
    if ids != [] {
      var rest := ids[1..];
      assert ids == [ids[0]] + rest;
      NoDuplicatesCons(ids[0], rest);
      if n == 0 {
        assert Elements(p) == {};
        KeepNone(ids);
      } else if ids[0] in s {
        PrefixOfKeep(rest, s, n - 1);
        var q := Keep(rest, s)[..n - 1];
        assert p == [ids[0]] + q;
        assert Elements(p) == {ids[0]} + Elements(q);
        assert Elements(rest) * Elements(p) == Elements(rest) * Elements(q);
        KeepSame(rest, Elements(p), Elements(q));
        PassedOver(ids, p, q, s);
      } else {
        PrefixOfKeep(rest, s, n);
        assert ids[0] !in Elements(Keep(ids, s)) && ids[0] !in p;
        PassedOver(ids, p, p, s);
      }
    }
  }

  lemma PassedOver(ids: seq<string>, p: seq<string>, q: seq<string>, s: set<string>)
    requires ids != [] && (p == [ids[0]] + q || (p == q && ids[0] !in s))
    requires NoDuplicates(ids)
    requires forall i, j :: 0 <= i < j < |ids[1..]| && ids[1..][j] in q ==> ids[1..][i] in q || ids[1..][i] !in s
    ensures forall i, j :: 0 <= i < j < |ids| && ids[j] in p ==> ids[i] in p || ids[i] !in s
  {
    forall i, j | 0 <= i < j < |ids| && ids[j] in p ensures ids[i] in p || ids[i] !in s {
      assert ids[j] == ids[1..][j - 1] && ids[j] in q;
      if i > 0 { assert ids[i] == ids[1..][i - 1]; }
    }
  }

  lemma {:induction false} KeepNone(ids: seq<string>)
    ensures Keep(ids, {}) == []
  {
    if ids != [] { KeepNone(ids[1..]); }
  }

  /** Kept members with nothing left out before them are a prefix. */
  lemma {:induction false} KeepIsPrefix(ids: seq<string>, s: set<string>)
    requires Before(ids, s, s)
    ensures Keep(ids, s) <= ids
  {
    if ids != [] {
      var rest := ids[1..];
      assert Before(rest, s, s) by {
        forall i, j | 0 <= i < j < |rest| && rest[j] in s ensures rest[i] in s {
          assert rest[j] == ids[j + 1] && rest[i] == ids[i + 1];
        }
      }
      KeepIsPrefix(rest, s);
      if ids[0] !in s {
        forall id | id in Elements(rest) ensures id !in s {
          var j :| 0 <= j < |rest| && rest[j] == id;
          assert ids[j + 1] == id;
        }
        assert Elements(Keep(rest, s)) == {};
        NoElements(Keep(rest, s));
      }
    }
  }
}
