/**
  The meaning of the regular expressions that globs are compiled to: the text is read back by
  the rules of Python's `re` for the constructs it uses, and accepts what the direct matcher does.
*/
module GlobRegex {
  import opened Wrappers
  import opened Globs

  // --- Regular expressions ------------------------------------------------------------------------

  datatype CharSet = Only(c: char) | Dot | NotSlash | OneOf(values: string, notSlash: bool)

  datatype Regex = Chars(set_: CharSet) | Star(body: Regex) | Maybe(body: Regex) | Cat(parts: seq<Regex>)

  predicate Has(cs: CharSet, c: char) {
    match cs
    case Only(d) => c == d
    case Dot => c != '\n'
    case NotSlash => c != '/'
    case OneOf(values, notSlash) => InClass(values, c) && (notSlash ==> c != '/')
  }

  /** The language of an expression. */
  predicate Accepts(r: Regex, s: string)
    decreases |s|, r, 0
  {
    match r
    case Chars(cs) => |s| == 1 && Has(cs, s[0])
    case Maybe(body) => s == "" || Accepts(body, s)
    case Star(body) => s == "" || exists k :: 0 < k <= |s| && Accepts(body, s[..k]) && Accepts(r, s[k..])
    case Cat(parts) => AcceptsAll(parts, s)
  }

  predicate AcceptsAll(parts: seq<Regex>, s: string)
    decreases |s|, parts, 1
  {
    if parts == [] then s == ""
    else exists k :: 0 <= k <= |s| && Accepts(parts[0], s[..k]) && AcceptsAll(parts[1..], s[k..])
  }

  // --- Reading an expression ----------------------------------------------------------------

  predicate Starts(t: string, p: string) {
    |p| <= |t| && t[..|p|] == p
  }

  /** After these a preceding item would be repeated. */
  predicate Quantifier(c: char) {
    c == '*' || c == '+' || c == '?' || c == '{'
  }

  predicate AlphaNumeric(c: char) {
    '0' <= c <= '9' || 'a' <= c <= 'z' || 'A' <= c <= 'Z'
  }

  const DIRS := Maybe(Cat([Star(Chars(Dot)), Chars(Only('/'))]))

  /** The members of a class up to its `]`, and the text after it. */
  function Members(t: string): Option<(string, string)> {
    if t == "" then None
    else if t[0] == ']' then Some(("", t[1..]))
    else if t[0] == '\\' && (|t| < 2 || AlphaNumeric(t[1]) || t[1] == '-') then None
    else
      var n := if t[0] == '\\' then 2 else 1;
      match Members(t[n..])
      case None => None
      case Some((values, rest)) => Some(([t[n - 1]] + values, rest))
  }

  /** A class after its `[`; a leading `^` would negate it, and a range that runs downwards is an error. */
  function ReadClass(t: string, notSlash: bool): Option<(Regex, string)> {
    if t == "" || t[0] == '^' || t[0] == ']' then None
    else
      match Members(t)
      case None => None
      case Some((values, rest)) => if GoodRanges(values) then Some((Chars(OneOf(values, notSlash)), rest)) else None
  }

  /** The first item of an expression. */
  function ReadItem(t: string): Option<(Regex, string)>
    requires t != ""
  {
    if Starts(t, "(?:.*/)?") then Some((DIRS, t[8..]))
    else if Starts(t, "(?!/)[") then ReadClass(t[6..], true)
    else if Starts(t, "[^/]*") then Some((Star(Chars(NotSlash)), t[5..]))
    else if Starts(t, "[^/]") then Some((Chars(NotSlash), t[4..]))
    else if t[0] == '[' then ReadClass(t[1..], false)
    else if Starts(t, ".*") then Some((Star(Chars(Dot)), t[2..]))
    else if t[0] == '.' then Some((Chars(Dot), t[1..]))
    else if t[0] == '\\' then (if |t| >= 2 && !AlphaNumeric(t[1]) then Some((Chars(Only(t[1])), t[2..])) else None)
    else if Special(t[0]) then None
    else Some((Chars(Only(t[0])), t[1..]))
  }

  /** The items before a closing `$`; None for an error and for constructs a compiled glob does not use. */
  function ReadItems(t: string): Option<seq<Regex>>
    decreases |t|
  {
    if t == "" then None
    else if t == "$" then Some([])
    else
      match ReadItem(t)
      case None => None
      case Some((item, rest)) =>
        if |rest| >= |t| || (rest != "" && Quantifier(rest[0])) then None
        else
          match ReadItems(rest)
          case None => None
          case Some(items) => Some([item] + items)
  }

  /** `re.compile`: the items between `^` and `$`. */
  function Compiled(text: string): Option<Regex> {
    if text == "" || text[0] != '^' then None
    else
      match ReadItems(text[1..])
      case None => None
      case Some(items) => Some(Cat(items))
  }

  // --- Reading back what was compiled -----------------------------------------------------------

  function PieceRegex(piece: Piece, path: bool): Regex {
    match piece
    case Literal(c) => Chars(Only(c))
    case AnyChar => Chars(if path then NotSlash else Dot)
    case AnyRun => Star(Chars(if path then NotSlash else Dot))
    case AnyPath => Star(Chars(Dot))
    case AnyDirs => DIRS
    case Class(values) => Chars(OneOf(values, path))
  }

  function Regexes(pieces: seq<Piece>, path: bool): (r: seq<Regex>)
    ensures |r| == |pieces|
  {
    seq(|pieces|, i requires 0 <= i < |pieces| => PieceRegex(pieces[i], path))
  }

  predicate GoodPiece(piece: Piece) {
    piece.Class? ==> GoodRanges(piece.values)
  }

  /** A rest that does not repeat the item before it. */
  predicate Clean(t: string) {
    t != "" && !Quantifier(t[0])
  }

  function MemberText(c: char): string {
    if c == '\\' || c == ']' || c == '^' then ['\\', c] else [c]
  }

  lemma MembersNext(c: char, tail: string)
    ensures Members(MemberText(c) + tail)
         == match Members(tail) { case None => None case Some((values, rest)) => Some(([c] + values, rest)) }
  {
    var t := MemberText(c) + tail;
    assert t[|MemberText(c)|..] == tail;
  }

  lemma {:induction false} MembersOfText(values: string, rest: string)
    ensures Members(ClassText(values) + "]" + rest) == Some((values, rest))
  {
    var t := ClassText(values) + "]" + rest;
    if values == "" {
      assert t[1..] == rest;
    } else {
      var c, tail := values[0], ClassText(values[1..]) + "]" + rest;
      assert ClassText(values) == MemberText(c) + ClassText(values[1..]);
      MembersOfText(values[1..], rest);
      MembersNext(c, tail);
      hide Members, ClassText, MemberText;
      assert t == MemberText(c) + tail;
      assert [c] + values[1..] == values;
    }
  }

  lemma ReadClassText(values: string, rest: string, notSlash: bool)
    requires values != ""
    ensures ReadClass(ClassText(values) + "]" + rest, notSlash)
         == if GoodRanges(values) then Some((Chars(OneOf(values, notSlash)), rest)) else None
  {
    MembersOfText(values, rest);
    var t := ClassText(values) + "]" + rest;
    assert t[0] == ClassText(values)[0];
  }

  lemma ReadLiteral(c: char, rest: string)
    ensures ReadItem(EscapeChar(c) + rest) == Some((Chars(Only(c)), rest))
  {
    var t := EscapeChar(c) + rest;
    assert Special('(') && Special('[') && Special('.') && Special('\\');
    if Special(c) {
      assert t[0] == '\\' && t[1] == c && t[2..] == rest;
      SpecialIsPunctuation(c);
    } else {
      assert t[0] == c && t[1..] == rest;
    }
    NotStarts(t, "(?:.*/)?");
    NotStarts(t, "(?!/)[");
    NotStarts(t, "[^/]*");
    NotStarts(t, "[^/]");
    NotStarts(t, ".*");
  }

  lemma NotStarts(t: string, p: string)
    requires t != "" && p != "" && t[0] != p[0]
    ensures !Starts(t, p)
  {
    if |p| <= |t| { assert t[..|p|][0] == t[0]; }
  }

  lemma SpecialIsPunctuation(c: char)
    requires Special(c)
    ensures !AlphaNumeric(c)
  {
  }

  lemma ReadRun(path: bool, rest: string)
    requires Clean(rest)
    ensures ReadItem(PieceText(AnyRun, path) + rest) == Some((PieceRegex(AnyRun, path), rest))
    ensures ReadItem(PieceText(AnyChar, path) + rest) == Some((PieceRegex(AnyChar, path), rest))
  {
    if path {
      var run, one := "[^/]*" + rest, "[^/]" + rest;
      assert run[..5] == "[^/]*" && run[5..] == rest && one[..4] == "[^/]" && one[4..] == rest;
      assert one[4] == rest[0];
      assert |one| >= 5 ==> one[..5][4] == rest[0];
      assert "[^/]*"[4] == '*';
      NotStarts(run, "(?:.*/)?");
      NotStarts(run, "(?!/)[");
      NotStarts(one, "(?:.*/)?");
      NotStarts(one, "(?!/)[");
    } else {
      var run, one := ".*" + rest, "." + rest;
      assert run[..2] == ".*" && run[2..] == rest && one[1..] == rest;
      assert one[1] == rest[0] && one[..2][1] == rest[0];
      assert ".*"[1] == '*';
      NotStarts(run, "(?:.*/)?");
      NotStarts(run, "(?!/)[");
      NotStarts(run, "[^/]*");
      NotStarts(run, "[^/]");
      NotStarts(one, "(?:.*/)?");
      NotStarts(one, "(?!/)[");
      NotStarts(one, "[^/]*");
      NotStarts(one, "[^/]");
    }
  }

  lemma ReadSlashClass(members: string)
    ensures ReadItem("(?!/)[" + members) == ReadClass(members, true)
  {
    var t := "(?!/)[" + members;
    hide ReadClass, Special, AlphaNumeric;
    assert t[..6] == "(?!/)[" && t[6..] == members;
    assert t[2] == '!' && "(?:.*/)?"[2] == ':';
    assert |t| >= 8 ==> t[..8][2] == '!';
  }

  lemma ReadPlainClass(members: string)
    requires members != "" && members[0] != '^'
    ensures ReadItem("[" + members) == ReadClass(members, false)
  {
    var t := "[" + members;
    hide ReadClass, Special, AlphaNumeric;
    assert t[1..] == members && t[1] == members[0];
    assert "[^/]"[1] == '^' && "[^/]*"[1] == '^';
    assert |t| >= 4 ==> t[..4][1] == t[1];
    assert |t| >= 5 ==> t[..5][1] == t[1];
    NotStarts(t, "(?:.*/)?");
    NotStarts(t, "(?!/)[");
  }

  lemma ClassPiece(values: string, path: bool, rest: string)
    requires values != ""
    ensures
      var members := ClassText(values) + "]" + rest;
      && members[0] != '^'
      && PieceText(Class(values), path) + rest == (if path then "(?!/)[" else "[") + members
      && PieceRegex(Class(values), path) == Chars(OneOf(values, path))
  {
    var members := ClassText(values) + "]" + rest;
    assert members[0] == ClassText(values)[0];
    hide ClassText;
  }

  lemma ReadClassItem(values: string, path: bool, rest: string)
    requires values != ""
    ensures ReadItem(PieceText(Class(values), path) + rest)
         == if GoodRanges(values) then Some((PieceRegex(Class(values), path), rest)) else None
  {
    hide *;
    var members := ClassText(values) + "]" + rest;
    ClassPiece(values, path, rest);
    ReadClassText(values, rest, path);
    if path { ReadSlashClass(members); } else { ReadPlainClass(members); }
  }

  lemma ReadPiece(piece: Piece, path: bool, rest: string)
    requires Clean(rest) && (piece.Class? ==> piece.values != "")
    ensures PieceText(piece, path) != ""
    ensures ReadItem(PieceText(piece, path) + rest) == if GoodPiece(piece) then Some((PieceRegex(piece, path), rest))
        else None
  {
    match piece
    case Literal(c) => ReadLiteral(c, rest);
    case AnyChar => ReadRun(path, rest);
    case AnyRun => ReadRun(path, rest);
    case AnyPath => ReadRun(false, rest);
    case AnyDirs =>
      var t := "(?:.*/)?" + rest;
      assert t[..8] == "(?:.*/)?" && t[8..] == rest;
    case Class(values) => ReadClassItem(values, path, rest);
  }

  lemma PieceIsClean(piece: Piece, path: bool)
    ensures Clean(PieceText(piece, path))
  {
    assert Special('*') && Special('+') && Special('?') && Special('{');
    hide ClassText;
  }

  lemma {:induction false} BodyIsClean(pieces: seq<Piece>, path: bool)
    ensures Clean(PiecesText(pieces, path) + "$")
  {
    if pieces != [] {
      var t := PieceText(pieces[0], path);
      PieceIsClean(pieces[0], path);
      hide Quantifier, PieceText;
      assert (PiecesText(pieces, path) + "$")[0] == t[0];
    }
  }

  lemma RegexesFirst(pieces: seq<Piece>, path: bool)
    requires pieces != []
    ensures Regexes(pieces, path) == [PieceRegex(pieces[0], path)] + Regexes(pieces[1..], path)
  {
    hide PieceRegex;
  }

  lemma ReadNext(t: string, tail: string)
    requires t != "" && Clean(tail)
    ensures ReadItem(t + tail).None? ==> ReadItems(t + tail).None?
    ensures forall item :: ReadItem(t + tail) == Some((item, tail)) ==>
      ReadItems(t + tail) == (match ReadItems(tail) case None => None case Some(items) => Some([item] + items))
  {
    hide ReadItem, Quantifier;
    assert |t + tail| > |tail| >= 1 && t + tail != "$";
  }

  /** Reading the text gives the pieces back, unless a class has a range that runs downwards. */
  lemma {:induction false} ReadBack(pieces: seq<Piece>, path: bool)
    requires forall i :: 0 <= i < |pieces| && pieces[i].Class? ==> pieces[i].values != ""
    ensures ReadItems(PiecesText(pieces, path) + "$")
         == if forall i :: 0 <= i < |pieces| ==> GoodPiece(pieces[i]) then Some(Regexes(pieces, path)) else None
  {
    if pieces != [] {
      var tail := PiecesText(pieces[1..], path) + "$";
      var t := PieceText(pieces[0], path);
      BodyIsClean(pieces[1..], path);
      ReadPiece(pieces[0], path, tail);
      assert PiecesText(pieces, path) + "$" == t + tail;
      ReadNext(t, tail);
      RegexesFirst(pieces, path);
      hide ReadItem, ReadItems, PieceText, PiecesText, GoodPiece, PieceRegex, Regexes;
      ReadBack(pieces[1..], path);
      assert forall i :: 0 <= i < |pieces[1..]| ==> pieces[1..][i] == pieces[i + 1];
    }
  }

  // --- The meaning is that of the direct matcher ---------------------------------------------------

  lemma {:induction false} StarIsRun(cs: CharSet, s: string)
    ensures Accepts(Star(Chars(cs)), s) <==> forall i :: 0 <= i < |s| ==> Has(cs, s[i])
  {
    if s != "" {
      hide Has;
      StarIsRun(cs, s[1..]);
      if Accepts(Star(Chars(cs)), s) {
        var k :| 0 < k <= |s| && Accepts(Chars(cs), s[..k]) && Accepts(Star(Chars(cs)), s[k..]);
        assert k == 1 && s[..1][0] == s[0];
        assert forall i :: 1 <= i < |s| ==> s[i] == s[1..][i - 1];
      }
      if forall i :: 0 <= i < |s| ==> Has(cs, s[i]) {
        assert forall i :: 0 <= i < |s[1..]| ==> s[1..][i] == s[i + 1];
        assert s[..1][0] == s[0] && Accepts(Chars(cs), s[..1]) && Accepts(Star(Chars(cs)), s[1..]);
      }
    }
  }

  /** The rest of the tokens means the same, for every subject. */
  ghost predicate RestAgrees(rs: seq<Regex>, rest: seq<GlobToken>, path: bool) {
    forall t: string :: AcceptsAll(rs, t) <==> Matches(rest, path, t)
  }

  lemma FirstThenRest(r: Regex, rs: seq<Regex>, s: string)
    ensures AcceptsAll([r] + rs, s) <==> exists k :: 0 <= k <= |s| && Accepts(r, s[..k]) && AcceptsAll(rs, s[k..])
  {
    hide Accepts;
    assert ([r] + rs)[0] == r && ([r] + rs)[1..] == rs;
  }

  /** A run of characters and then the rest. */
  lemma RunStep(cs: CharSet, path: bool, rs: seq<Regex>, rest: seq<GlobToken>, mode: bool, s: string)
    requires forall c: char :: Has(cs, c) <==> Fits(mode, c)
    requires RestAgrees(rs, rest, path)
    ensures AcceptsAll([Star(Chars(cs))] + rs, s)
            <==> exists k :: 0 <= k <= |s| && Run(mode, s[..k]) && Matches(rest, path, s[k..])
  {
    FirstThenRest(Star(Chars(cs)), rs, s);
    hide Accepts, AcceptsAll, Matches, Has, Fits;
    forall k | 0 <= k <= |s|
      ensures Accepts(Star(Chars(cs)), s[..k]) && AcceptsAll(rs, s[k..])
          <==> Run(mode, s[..k]) && Matches(rest, path, s[k..])
    {
      StarIsRun(cs, s[..k]);
    }
  }

  /** One character and then the rest. */
  lemma OneStep(cs: CharSet, path: bool, rs: seq<Regex>, rest: seq<GlobToken>, s: string)
    requires RestAgrees(rs, rest, path)
    ensures AcceptsAll([Chars(cs)] + rs, s) <==> s != "" && Has(cs, s[0]) && Matches(rest, path, s[1..])
  {
    FirstThenRest(Chars(cs), rs, s);
    hide AcceptsAll, Matches, Has;
    if s != "" && Has(cs, s[0]) && Matches(rest, path, s[1..]) {
      assert s[..1][0] == s[0] && Accepts(Chars(cs), s[..1]) && AcceptsAll(rs, s[1..]);
    }
  }

  /** A directory part: a run without line breaks that ends with `/`. */
  lemma DirsAccept(s: string)
    ensures Accepts(Cat([Star(Chars(Dot)), Chars(Only('/'))]), s)
        <==> s != "" && Run(false, s[..|s| - 1]) && s[|s| - 1] == '/'
  {
    hide *;
    var star, slash := Star(Chars(Dot)), Chars(Only('/'));
    CatAccepts([star, slash], s);
    assert [star] + [slash] == [star, slash];
    FirstThenRest(star, [slash], s);
    if exists k :: 0 <= k <= |s| && Accepts(star, s[..k]) && AcceptsAll([slash], s[k..]) {
      var k :| 0 <= k <= |s| && Accepts(star, s[..k]) && AcceptsAll([slash], s[k..]);
      SlashAt(s, k);
    }
    if s != "" {
      SlashAt(s, |s| - 1);
      DotsAreRun(s[..|s| - 1]);
    }
  }

  lemma DotsAreRun(s: string)
    ensures Accepts(Star(Chars(Dot)), s) <==> Run(false, s)
  {
    hide Accepts;
    StarIsRun(Dot, s);
  }

  lemma CatAccepts(parts: seq<Regex>, s: string)
    ensures Accepts(Cat(parts), s) <==> AcceptsAll(parts, s)
  {
  }

  lemma SlashAt(s: string, k: nat)
    requires k <= |s|
    ensures AcceptsAll([Chars(Only('/'))], s[k..]) <==> k == |s| - 1 && s[k] == '/'
  {
    hide *;
    SlashOnly(s[k..]);
    assert k == |s| - 1 ==> s[k..] == [s[k]];
  }

  lemma SlashOnly(t: string)
    ensures AcceptsAll([Chars(Only('/'))], t) <==> t == "/"
  {
    FirstThenRest(Chars(Only('/')), [], t);
    assert [Chars(Only('/'))] + [] == [Chars(Only('/'))];
    if t == "/" {
      assert t[..1] == t && t[1..] == "";
      assert Accepts(Chars(Only('/')), t[..1]) && AcceptsAll([], t[1..]);
    }
    if AcceptsAll([Chars(Only('/'))], t) {
      var k :| 0 <= k <= |t| && Accepts(Chars(Only('/')), t[..k]) && AcceptsAll([], t[k..]);
      assert t == t[..k] + t[k..];
    }
  }

  lemma DirsAt(s: string, k: nat)
    requires k <= |s|
    ensures Accepts(DIRS, s[..k]) <==> k == 0 || (Run(false, s[..k - 1]) && s[k - 1] == '/')
  {
    if k > 0 {
      DirsAccept(s[..k]);
      assert s[..k][..k - 1] == s[..k - 1];
    }
  }

  lemma DirsStep(path: bool, rs: seq<Regex>, rest: seq<GlobToken>, s: string)
    requires RestAgrees(rs, rest, path)
    ensures AcceptsAll([DIRS] + rs, s)
            <==> Matches(rest, path, s)
                 || exists k :: 0 <= k < |s| && Run(false, s[..k]) && s[k] == '/' && Matches(rest, path, s[k + 1..])
  {
    hide Accepts, AcceptsAll, Matches, Run;
    FirstThenRest(DIRS, rs, s);
    assert s[0..] == s;
    if AcceptsAll([DIRS] + rs, s) {
      var k :| 0 <= k <= |s| && Accepts(DIRS, s[..k]) && AcceptsAll(rs, s[k..]);
      DirsAt(s, k);
      if k > 0 { assert Run(false, s[..k - 1]) && s[k - 1] == '/' && Matches(rest, path, s[k - 1 + 1..]); }
    }
    if Matches(rest, path, s) {
      DirsAt(s, 0);
      assert Accepts(DIRS, s[..0]) && AcceptsAll(rs, s[0..]);
    }
    if exists k :: 0 <= k < |s| && Run(false, s[..k]) && s[k] == '/' && Matches(rest, path, s[k + 1..]) {
      var k :| 0 <= k < |s| && Run(false, s[..k]) && s[k] == '/' && Matches(rest, path, s[k + 1..]);
      DirsAt(s, k + 1);
      assert Accepts(DIRS, s[..k + 1]) && AcceptsAll(rs, s[k + 1..]);
    }
  }

  /** The items of valid tokens accept exactly what the tokens match. */
  lemma {:induction false} ItemsMeanTokens(tokens: seq<GlobToken>, path: bool)
    requires Validate(tokens, false, 0).None?
    ensures RestAgrees(Regexes(Pieces(tokens, path), path), tokens, path)
    decreases |tokens|
  {
    if tokens == [] {
      assert Pieces(tokens, path) == [];
    } else {
      hide *;
      var (piece, n) := FirstPiece(tokens, path);
      PieceStep(tokens, path);
      ItemsMeanTokens(tokens[n..], path);
      var pieces := Pieces(tokens, path);
      assert pieces[0] == piece && pieces[1..] == Pieces(tokens[n..], path);
      RegexesFirst(pieces, path);
      ItemsStep(tokens, path, Regexes(Pieces(tokens[n..], path), path));
    }
  }

  lemma ItemsStep(tokens: seq<GlobToken>, path: bool, rs: seq<Regex>)
    requires tokens != [] && Validate(tokens, false, 0).None? && FirstPiece(tokens, path).1 <= |tokens|
    requires RestAgrees(rs, tokens[FirstPiece(tokens, path).1..], path)
    ensures RestAgrees([PieceRegex(FirstPiece(tokens, path).0, path)] + rs, tokens, path)
  {
    hide FirstPiece, PieceRegex, AcceptsAll, Matches, Validate;
    var piece := FirstPiece(tokens, path).0;
    forall s: string ensures AcceptsAll([PieceRegex(piece, path)] + rs, s) <==> Matches(tokens, path, s) {
      PieceMeansTokens(tokens, path, rs, s);
    }
  }

  lemma PieceMeansTokens(tokens: seq<GlobToken>, path: bool, rs: seq<Regex>, s: string)
    requires tokens != [] && Validate(tokens, false, 0).None? && FirstPiece(tokens, path).1 <= |tokens|
    requires RestAgrees(rs, tokens[FirstPiece(tokens, path).1..], path)
    ensures AcceptsAll([PieceRegex(FirstPiece(tokens, path).0, path)] + rs, s) <==> Matches(tokens, path, s)
  {
    hide Accepts, AcceptsAll, Validate, Run, InClass, ClassEnd;
    var (piece, n) := FirstPiece(tokens, path);
    var rest := tokens[n..];
    match piece
    case Literal(c) => OneStep(Only(c), path, rs, rest, s);
    case AnyChar => OneStep(if path then NotSlash else Dot, path, rs, rest, s);
    case AnyRun => RunStep(if path then NotSlash else Dot, path, rs, rest, path, s);
    case AnyPath => RunStep(Dot, path, rs, rest, false, s);
    case AnyDirs => DirsStep(path, rs, rest, s);
    case Class(values) => OneStep(OneOf(values, path), path, rs, rest, s);
  }

  // --- Whole globs ---------------------------------------------------------------------------------------

  datatype MatchError = BadGlob(error: GlobError) | BadRange

  /** Every class range of the tokens runs upwards. */
  predicate RangesOk(tokens: seq<GlobToken>, path: bool) {
    forall i :: 0 <= i < |Pieces(tokens, path)| ==> GoodPiece(Pieces(tokens, path)[i])
  }

  lemma {:induction false} ClassesHaveMembers(tokens: seq<GlobToken>, path: bool)
    requires Validate(tokens, false, 0).None?
    ensures forall i :: 0 <= i < |Pieces(tokens, path)| && Pieces(tokens, path)[i].Class? ==>
        Pieces(tokens, path)[i].values != ""
    decreases |tokens|
  {
    if tokens != [] {
      hide Validate, Pieces, FirstPiece;
      PieceStep(tokens, path);
      ClassesHaveMembers(tokens[FirstPiece(tokens, path).1..], path);
    } else {
      assert Pieces(tokens, path) == [];
    }
  }

  /** The compiled text of valid tokens reads as an expression unless a range runs downwards. */
  lemma CompiledText(tokens: seq<GlobToken>, path: bool)
    requires Validate(tokens, false, 0).None?
    ensures Compiled("^" + Body(tokens, path) + "$")
         == if RangesOk(tokens, path) then Some(Cat(Regexes(Pieces(tokens, path), path))) else None
  {
    var text := "^" + Body(tokens, path) + "$";
    assert text[0] == '^' && text[1..] == Body(tokens, path) + "$";
    ClassesHaveMembers(tokens, path);
    ReadBack(Pieces(tokens, path), path);
    hide ReadItems, Pieces, PiecesText;
  }

  /** Main result: a compiled glob accepts exactly the subjects that its tokens match. */
  lemma CompiledMeansTokens(tokens: seq<GlobToken>, path: bool, subject: string)
    requires Validate(tokens, false, 0).None? && RangesOk(tokens, path)
    ensures
      var regex := Compiled("^" + Body(tokens, path) + "$");
      regex.Some? && (Accepts(regex.value, subject) <==> Matches(tokens, path, subject))
  {
    CompiledText(tokens, path);
    ItemsMeanTokens(tokens, path);
    hide Compiled, Pieces, AcceptsAll, RangesOk;
  }

  /** `glob_fullmatch`: compiles the pattern and matches the whole subject. */
  method GlobFullmatch(pattern: string, subject: string, path: bool) returns (r: Result<bool, MatchError>)
    ensures r == FullMatch(pattern, subject, path)
  {
    var tokens := TokenizeGlob(pattern);
    if tokens.Err? {
      return Err(BadGlob(tokens.error));
    }
    var text := CompileGlob(tokens.value, path);
    CompiledText(tokens.value, path);
    ItemsMeanTokens(tokens.value, path);
    hide Compiled, RangesOk, Pieces, AcceptsAll;
    var regex := Compiled(text);
    return if regex.None? then Err(BadRange) else Ok(Accepts(regex.value, subject));
  }

  /** What a pattern means: its tokens match the whole subject. */
  function FullMatch(pattern: string, subject: string, path: bool): Result<bool, MatchError> {
    match Tokenize(pattern)
    case Err(e) => Err(BadGlob(e))
    case Ok(tokens) => if RangesOk(tokens, path) then Ok(Matches(tokens, path, subject)) else Err(BadRange)
  }

  // --- Exact globs ---------------------------------------------------------------------------------------

  /** `glob_is_exact` on the tokens. */
  predicate IsExact(tokens: seq<GlobToken>) {
    forall i :: 0 <= i < |tokens| ==> !Is(tokens[i], '*') && !Is(tokens[i], '?') && !Is(tokens[i], '[')
  }

  /** `escape_exact_glob`. */
  function EscapeExact(value: string): string {
    if value == "" then ""
    else (if Escapable(value[0]) then ['\\', value[0]] else [value[0]]) + EscapeExact(value[1..])
  }

  method EscapeExactGlob(value: string) returns (escaped: string)
    ensures escaped == EscapeExact(value)
  {
    escaped := "";
    var i := 0;
    assert value[0..] == value;
    while i < |value|
      invariant 0 <= i <= |value|
      invariant escaped + EscapeExact(value[i..]) == EscapeExact(value)
    {
      assert value[i..][1..] == value[i + 1..];
      if Escapable(value[i]) {
        escaped := escaped + "\\";
      }
      escaped := escaped + [value[i]];
      i := i + 1;
    }
  }

  /** An exact glob matches the one text its tokens spell, in both modes. */
  lemma {:induction false} ExactMatchesOne(tokens: seq<GlobToken>, path: bool, s: string)
    requires IsExact(tokens)
    ensures Matches(tokens, path, s) <==> s == Values(tokens)
    ensures RangesOk(tokens, path)
    decreases |tokens|
  {
    if tokens == [] {
      assert Pieces(tokens, path) == [];
    } else {
      var rest := tokens[1..];
      assert IsExact(rest);
      ExactMatchesOne(rest, path, if s == "" then "" else s[1..]);
      assert Values(tokens) == [tokens[0].value] + Values(rest);
      assert s != "" ==> s == [s[0]] + s[1..];
      assert Pieces(tokens, path) == [Literal(tokens[0].value)] + Pieces(rest, path);
      hide Pieces, Matches, GoodPiece;
      assert forall i :: 1 <= i < |Pieces(tokens, path)| ==> Pieces(tokens, path)[i] == Pieces(rest, path)[i - 1];
      assert GoodPiece(Literal(tokens[0].value)) by { LiteralIsGood(tokens[0].value); }
    }
  }

  lemma LiteralIsGood(c: char)
    ensures GoodPiece(Literal(c))
  {
  }

  function Literals(value: string): (tokens: seq<GlobToken>)
    ensures |tokens| == |value| && Values(tokens) == value && IsExact(tokens)
  {
    seq(|value|, i requires 0 <= i < |value| => GlobToken(value[i], Escapable(value[i])))
  }

  lemma EscapedHead(value: string)
    requires value != ""
    ensures
      EscapeExact(value)
      == (if Escapable(value[0]) then ['\\', value[0]] else [value[0]]) + EscapeExact(value[1..])
    ensures Literals(value) == [GlobToken(value[0], Escapable(value[0]))] + Literals(value[1..])
    ensures value[0] == '\\' ==> Escapable(value[0])
  {
  }

  /** Escaping prints literal tokens, and scanning reads them back. */
  lemma {:induction false} ScanEscaped(value: string)
    ensures Scan(EscapeExact(value)) == Ok(Literals(value))
  {
    if value != "" {
      hide Scan, EscapeExact, Literals;
      var c, rest := value[0], EscapeExact(value[1..]);
      ScanEscaped(value[1..]);
      EscapedHead(value);
      var text := EscapeExact(value);
      ScanNext(text);
      if Escapable(c) {
        assert text == ['\\', c] + rest && text[2..] == rest;
      } else {
        assert text == [c] + rest && text[1..] == rest;
      }
    }
  }

  lemma {:induction false} LiteralsAreValid(tokens: seq<GlobToken>)
    requires IsExact(tokens) && forall i :: 0 <= i < |tokens| ==> !Is(tokens[i], ']')
    ensures Validate(tokens, false, 0).None?
  {
    if tokens != [] { LiteralsAreValid(tokens[1..]); }
  }

  lemma {:induction false} ValidExactHasNoClose(tokens: seq<GlobToken>)
    requires IsExact(tokens) && Validate(tokens, false, 0).None?
    ensures forall i :: 0 <= i < |tokens| ==> !Is(tokens[i], ']')
  {
    if tokens != [] {
      ValidExactHasNoClose(tokens[1..]);
      assert forall i :: 1 <= i < |tokens| ==> tokens[i] == tokens[1..][i - 1];
    }
  }

  /** The escaped text of a value is a valid exact glob that matches this value only. */
  lemma EscapedMatchesOnlyItself(value: string, subject: string, path: bool)
    ensures Tokenize(EscapeExact(value)) == Ok(Literals(value))
    ensures FullMatch(EscapeExact(value), subject, path) == Ok(subject == value)
  {
    ScanEscaped(value);
    LiteralsAreValid(Literals(value));
    ExactMatchesOne(Literals(value), path, subject);
    hide Matches, RangesOk, Validate;
  }

  lemma {:induction false} ScannedTokens(pattern: string)
    requires Scan(pattern).Ok?
    ensures forall i :: 0 <= i < |Scan(pattern).value| ==>
      var t := Scan(pattern).value[i]; (t.escaped ==> Escapable(t.value)) && (!t.escaped ==> t.value != '\\')
  {
    if pattern != "" {
      ScanNext(pattern);
      if pattern[0] != '\\' { ScannedTokens(pattern[1..]); } else { ScannedTokens(pattern[2..]); }
    }
  }

  lemma ValuesFirst(first: GlobToken, rest: seq<GlobToken>)
    ensures Values([first] + rest) == [first.value] + Values(rest)
  {
  }

  lemma EscapeFirst(c: char, rest: string)
    ensures EscapeExact([c] + rest) == (if Escapable(c) then ['\\', c] else [c]) + EscapeExact(rest)
  {
    assert ([c] + rest)[1..] == rest;
  }

  lemma {:induction false} ExactTextIsEscaped(pattern: string)
    requires Scan(pattern).Ok? && forall t :: t in Scan(pattern).value ==> (t.escaped <==> Escapable(t.value))
    ensures pattern == EscapeExact(Values(Scan(pattern).value))
  {
    if pattern != "" {
      ScanNext(pattern);
      var tokens := Scan(pattern).value;
      var n := if pattern[0] != '\\' then 1 else 2;
      var rest := Scan(pattern[n..]).value;
      var first := tokens[0];
      assert tokens == [first] + rest && first in tokens;
      assert pattern == (if first.escaped then ['\\', first.value] else [first.value]) + pattern[n..];
      hide *;
      assert forall t :: t in rest ==> t in tokens;
      ExactTextIsEscaped(pattern[n..]);
      ValuesFirst(first, rest);
      EscapeFirst(first.value, Values(rest));
    } else {
      assert Values([]) == "" && EscapeExact("") == "";
    }
  }

  /** There is one exact glob for each text: its escaped form. */
  lemma ExactGlobIsEscaped(pattern: string)
    requires Tokenize(pattern).Ok? && IsExact(Tokenize(pattern).value)
    ensures pattern == EscapeExact(Values(Tokenize(pattern).value))
  {
    var tokens := Tokenize(pattern).value;
    ScannedTokens(pattern);
    ValidExactHasNoClose(tokens);
    forall t | t in tokens ensures t.escaped <==> Escapable(t.value) {
      var i :| 0 <= i < |tokens| && tokens[i] == t;
      assert !Is(tokens[i], ']') && !Is(tokens[i], '*') && !Is(tokens[i], '?') && !Is(tokens[i], '[');
    }
    ExactTextIsEscaped(pattern);
  }
}
