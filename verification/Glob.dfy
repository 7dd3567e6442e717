/**
  Globs: tokens, the regular expression text a glob is compiled to, the meaning of that text,
  and a direct matcher over the tokens (`src/mewcode/matching.py`).
*/
module Globs {
  import opened Wrappers

  datatype GlobToken = GlobToken(value: char, escaped: bool)

  datatype GlobError = InvalidEscape | NestedClass | UnmatchedClose | EmptyClass | UnmatchedOpen

  // --- Tokens ---------------------------------------------------------------------------

  predicate Escapable(c: char) {
    c == '\\' || c == '*' || c == '?' || c == '[' || c == ']'
  }

  function Scan(pattern: string): Result<seq<GlobToken>, GlobError> {
    if pattern == "" then Ok([])
    else if pattern[0] != '\\' then
      match Scan(pattern[1..])
      case Ok(rest) => Ok([GlobToken(pattern[0], false)] + rest)
      case Err(e) => Err(e)
    else if |pattern| < 2 || !Escapable(pattern[1]) then Err(InvalidEscape)
    else
      match Scan(pattern[2..])
      case Ok(rest) => Ok([GlobToken(pattern[1], true)] + rest)
      case Err(e) => Err(e)
  }

  predicate Is(t: GlobToken, c: char) {
    !t.escaped && t.value == c
  }

  /** `_validate_character_classes` from the middle of the tokens: `inside` a class with `content` members so far. */
  function Validate(tokens: seq<GlobToken>, inside: bool, content: nat): Option<GlobError> {
    if tokens == [] then (if inside then Some(UnmatchedOpen) else None)
    else
      var t, rest := tokens[0], tokens[1..];
      if t.escaped then Validate(rest, inside, if inside then content + 1 else content)
      else if t.value == '[' then (if inside then Some(NestedClass) else Validate(rest, true, 0))
      else if t.value == ']' then
        (if !inside then Some(UnmatchedClose) else if content == 0 then Some(EmptyClass)
            else Validate(rest, false, content))
      else Validate(rest, inside, if inside then content + 1 else content)
  }

  function Tokenize(pattern: string): Result<seq<GlobToken>, GlobError> {
    match Scan(pattern)
    case Err(e) => Err(e)
    case Ok(tokens) =>
      match Validate(tokens, false, 0)
      case Some(e) => Err(e)
      case None => Ok(tokens)
  }

  /** The text of tokens: an escaped character behind a backslash, any other as it is. */
  function Printed(tokens: seq<GlobToken>): string {
    if tokens == [] then ""
    else (if tokens[0].escaped then ['\\', tokens[0].value] else [tokens[0].value]) + Printed(tokens[1..])
  }

  /** Only special characters are escaped, and a backslash always is. */
  predicate GoodTokens(tokens: seq<GlobToken>) {
    forall i :: 0 <= i < |tokens| ==>
      if tokens[i].escaped then tokens[i].value in {'\\', '*', '?', '[', ']'} else tokens[i].value != '\\'
  }

  /** Scanning reads tokens from a text if and only if they are good ones that print to it. */
  lemma {:induction false} ScanIff(pattern: string, tokens: seq<GlobToken>)
    ensures Scan(pattern) == Ok(tokens) <==> GoodTokens(tokens) && Printed(tokens) == pattern
    decreases |pattern|
  {
    hide Printed, GoodTokens;
    PrintedFirst(tokens);
    if pattern != "" {
      ScanNext(pattern);
      if tokens != [] {
        var n := if tokens[0].escaped then 2 else 1;
        if pattern[0] != '\\' {
          ScanIff(pattern[1..], tokens[1..]);
          assert pattern == [pattern[0]] + pattern[1..] && tokens == [tokens[0]] + tokens[1..];
        } else if |pattern| >= 2 {
          ScanIff(pattern[2..], tokens[1..]);
          assert pattern == [pattern[0], pattern[1]] + pattern[2..] && tokens == [tokens[0]] + tokens[1..];
        }
      }
    }
  }

  lemma PrintedFirst(tokens: seq<GlobToken>)
    ensures Printed(tokens) == "" <==> tokens == []
    ensures tokens == [] ==> GoodTokens(tokens)
    ensures tokens != [] ==>
      var first := if tokens[0].escaped then ['\\', tokens[0].value] else [tokens[0].value];
      && Printed(tokens) == first + Printed(tokens[1..])
      && (GoodTokens(tokens)
          <==> GoodTokens(tokens[1..]) && if tokens[0].escaped then Escapable(tokens[0].value)
              else tokens[0].value != '\\')
  {
    if tokens != [] {
      assert tokens == [tokens[0]] + tokens[1..];
    }
  }

  // --- Well-formed classes ----------------------------------------------------------------

  predicate IsBracket(t: GlobToken) {
    Is(t, '[') || Is(t, ']')
  }

  predicate NoBracket(tokens: seq<GlobToken>, i: nat, j: nat)
    requires j <= |tokens|
  {
    forall k :: i <= k < j ==> !IsBracket(tokens[k])
  }

  /** The class opened at `i` is closed at `j`, with at least one member and no bracket between. */
  predicate IsClass(tokens: seq<GlobToken>, i: nat, j: nat) {
    i + 1 < j < |tokens| && Is(tokens[i], '[') && Is(tokens[j], ']') && NoBracket(tokens, i + 1, j)
  }

  /** From place `s` on every unescaped bracket opens or closes a class. */
  ghost predicate Classes(tokens: seq<GlobToken>, s: nat) {
    && (forall i :: s <= i < |tokens| && Is(tokens[i], '[') ==> exists j :: IsClass(tokens, i, j))
    && (forall j :: s <= j < |tokens| && Is(tokens[j], ']') ==> exists i :: s <= i && IsClass(tokens, i, j))
  }

  /** The check of classes passes if and only if every unescaped bracket opens or closes a class. */
  lemma ValidIff(tokens: seq<GlobToken>)
    ensures Validate(tokens, false, 0).None? <==> Classes(tokens, 0)
  {
    assert tokens[0..] == tokens;
    ValidFrom(tokens, 0, false, 0, 0);
  }

  /** The check from place `k` on, in the class opened at `s` or outside. */
  lemma {:induction false} ValidFrom(tokens: seq<GlobToken>, k: nat, inside: bool, s: nat, content: nat)
    requires k <= |tokens|
    requires inside ==> s < k && Is(tokens[s], '[') && NoBracket(tokens, s + 1, k) && content == k - s - 1
    ensures Validate(tokens[k..], inside, content).None? <==> Classes(tokens, if inside then s else k)
    decreases |tokens| - k
  {
    hide Classes;
    if k == |tokens| {
      assert tokens[k..] == [];
      if inside { Unclosed(tokens, s, k); } else { NothingLeft(tokens, k); }
    } else {
      var t := tokens[k];
      assert tokens[k..][0] == t && tokens[k..][1..] == tokens[k + 1..];
      if !IsBracket(t) {
        ValidFrom(tokens, k + 1, inside, s, if inside then content + 1 else content);
        if !inside { SkipPlain(tokens, k); }
      } else if t.value == '[' {
        if inside { Unclosed(tokens, s, k); } else { ValidFrom(tokens, k + 1, true, k, 0); }
      } else if !inside || content == 0 {
        if inside { Unclosed(tokens, s, k); } else { Unopened(tokens, k); }
      } else {
        ValidFrom(tokens, k + 1, false, 0, content);
        SkipClass(tokens, s, k);
      }
    }
  }

  lemma NothingLeft(tokens: seq<GlobToken>, k: nat)
    requires k == |tokens|
    ensures Classes(tokens, k)
  {
  }

  /** No bracket closes the class opened at `s`: the next one is at its end, opens another, or leaves it empty. */
  lemma Unclosed(tokens: seq<GlobToken>, s: nat, k: nat)
    requires s < k <= |tokens| && Is(tokens[s], '[') && NoBracket(tokens, s + 1, k)
    requires k == |tokens| || Is(tokens[k], '[') || (Is(tokens[k], ']') && k == s + 1)
    ensures !Classes(tokens, s)
  {
    hide Classes;
    forall j: nat ensures !IsClass(tokens, s, j) { }
    NoClassAt(tokens, s);
  }

  lemma NoClassAt(tokens: seq<GlobToken>, s: nat)
    requires s < |tokens| && Is(tokens[s], '[') && forall j: nat :: !IsClass(tokens, s, j)
    ensures !Classes(tokens, s)
  {
    hide IsClass;
  }

  lemma Unopened(tokens: seq<GlobToken>, k: nat)
    requires k < |tokens| && Is(tokens[k], ']')
    ensures !Classes(tokens, k)
  {
  }

  lemma SkipPlain(tokens: seq<GlobToken>, k: nat)
    requires k < |tokens| && !IsBracket(tokens[k])
    ensures Classes(tokens, k) <==> Classes(tokens, k + 1)
  {
  }

  lemma SkipClass(tokens: seq<GlobToken>, s: nat, k: nat)
    requires IsClass(tokens, s, k)
    ensures Classes(tokens, s) <==> Classes(tokens, k + 1)
  {
    forall i: nat, j: nat | s <= i <= k < j ensures !IsClass(tokens, i, j) { }
    forall i | s < i < k ensures !IsBracket(tokens[i]) { }
    if Classes(tokens, k + 1) {
      forall i | s <= i < |tokens| && Is(tokens[i], '[') ensures exists j :: IsClass(tokens, i, j) { }
    }
  }

  method ValidateCharacterClasses(tokens: seq<GlobToken>) returns (error: Option<GlobError>)
    ensures error == Validate(tokens, false, 0)
  {
    var inside, content, i := false, 0, 0;
    assert tokens[0..] == tokens;
    while i < |tokens|
      invariant 0 <= i <= |tokens|
      invariant Validate(tokens[i..], inside, content) == Validate(tokens, false, 0)
    {
      var t := tokens[i];
      assert tokens[i..][1..] == tokens[i + 1..];
      if t.escaped {
        if inside { content := content + 1; }
      } else if t.value == '[' {
        if inside { return Some(NestedClass); }
        inside, content := true, 0;
      } else if t.value == ']' {
        if !inside { return Some(UnmatchedClose); }
        if content == 0 { return Some(EmptyClass); }
        inside := false;
      } else if inside {
        content := content + 1;
      }
      i := i + 1;
    }
    return if inside then Some(UnmatchedOpen) else None;
  }

  function Prepend(before: seq<GlobToken>, r: Result<seq<GlobToken>, GlobError>): Result<seq<GlobToken>, GlobError> {
    match r
    case Ok(rest) => Ok(before + rest)
    case Err(e) => Err(e)
  }

  lemma PrependNothing(r: Result<seq<GlobToken>, GlobError>)
    ensures Prepend([], r) == r
  {
    if r.Ok? { assert [] + r.value == r.value; }
  }

  lemma PrependNext(before: seq<GlobToken>, t: GlobToken, r: Result<seq<GlobToken>, GlobError>)
    ensures Prepend(before, Prepend([t], r)) == Prepend(before + [t], r)
  {
    if r.Ok? { assert before + ([t] + r.value) == (before + [t]) + r.value; }
  }

  lemma ScanNext(pattern: string)
    requires pattern != ""
    ensures pattern[0] != '\\' ==> Scan(pattern) == Prepend([GlobToken(pattern[0], false)], Scan(pattern[1..]))
    ensures pattern[0] == '\\' && |pattern| >= 2 && Escapable(pattern[1]) ==>
      Scan(pattern) == Prepend([GlobToken(pattern[1], true)], Scan(pattern[2..]))
    ensures pattern[0] == '\\' && (|pattern| < 2 || !Escapable(pattern[1])) ==> Scan(pattern) == Err(InvalidEscape)
  {
  }

  method TokenizeGlob(pattern: string) returns (r: Result<seq<GlobToken>, GlobError>)
    ensures r == Tokenize(pattern)
  {
    var tokens: seq<GlobToken>, i := [], 0;
    assert pattern[0..] == pattern;
    PrependNothing(Scan(pattern));
    while i < |pattern|
      invariant 0 <= i <= |pattern|
      invariant Prepend(tokens, Scan(pattern[i..])) == Scan(pattern)
    {
      hide Scan;
      var c := pattern[i];
      ghost var rest := pattern[i..];
      ScanNext(rest);
      if c != '\\' {
        assert rest[1..] == pattern[i + 1..];
        PrependNext(tokens, GlobToken(c, false), Scan(pattern[i + 1..]));
        tokens, i := tokens + [GlobToken(c, false)], i + 1;
      } else {
        if i + 1 >= |pattern| || !Escapable(pattern[i + 1]) {
          return Err(InvalidEscape);
        }
        assert rest[2..] == pattern[i + 2..];
        PrependNext(tokens, GlobToken(pattern[i + 1], true), Scan(pattern[i + 2..]));
        tokens, i := tokens + [GlobToken(pattern[i + 1], true)], i + 2;
      }
    }
    assert pattern[i..] == [] && tokens + [] == tokens;
    var error := ValidateCharacterClasses(tokens);
    return if error.Some? then Err(error.value) else Ok(tokens);
  }

  // --- Character classes ----------------------------------------------------------------

  /** The place of the unescaped `]` that closes a class. */
  function ClassEnd(tokens: seq<GlobToken>): (n: nat)
    ensures n <= |tokens|
    ensures n < |tokens| ==> Is(tokens[n], ']')
    ensures forall i :: 0 <= i < n ==> !Is(tokens[i], ']')
  {
    if tokens == [] || Is(tokens[0], ']') then 0 else 1 + ClassEnd(tokens[1..])
  }

  function Values(tokens: seq<GlobToken>): (s: string)
    ensures |s| == |tokens|
  {
    seq(|tokens|, i requires 0 <= i < |tokens| => tokens[i].value)
  }

  /** A class member `a-b` is a range; a `-` at an end stands for itself. */
  predicate InClass(values: string, c: char) {
    if values == "" then false
    else if |values| >= 3 && values[1] == '-' then values[0] <= c <= values[2] || InClass(values[3..], c)
    else values[0] == c || InClass(values[1..], c)
  }

  /** Every range of a class runs upwards. */
  predicate GoodRanges(values: string) {
    if values == "" then true
    else if |values| >= 3 && values[1] == '-' then values[0] <= values[2] && GoodRanges(values[3..])
    else GoodRanges(values[1..])
  }

  /** Without a `-` between other members a class is the set of its members. */
  lemma {:induction false} RangeFreeClass(values: string, c: char)
    requires forall i :: 0 < i < |values| - 1 ==> values[i] != '-'
    ensures InClass(values, c) <==> c in values
    ensures GoodRanges(values)
  {
    if values != "" {
      RangeFreeClass(values[1..], c);
      assert values == [values[0]] + values[1..];
    }
  }

  // --- The direct matcher ---------------------------------------------------------------------

  /** What `*` runs over. */
  predicate Fits(path: bool, c: char) {
    if path then c != '/' else c != '\n'
  }

  predicate Run(path: bool, s: string) {
    forall i :: 0 <= i < |s| ==> Fits(path, s[i])
  }

  predicate IsStar(tokens: seq<GlobToken>, i: nat) {
    i < |tokens| && Is(tokens[i], '*')
  }

  /**
    Whether the tokens match the whole of `s`. `?` is one character and `*` a run of them:
    without `/` in a path, without a line break in a text. In a path `**` is a run without a
    line break, and `**` before `/` is nothing or such a run that ends with `/`.
  */
  predicate Matches(tokens: seq<GlobToken>, path: bool, s: string)
    decreases |tokens|
  {
    if tokens == [] then s == ""
    else if Is(tokens[0], '*') then
      if path && IsStar(tokens, 1) then
        if 2 < |tokens| && Is(tokens[2], '/') then
          || Matches(tokens[3..], path, s)
          || exists k :: 0 <= k < |s| && Run(false, s[..k]) && s[k] == '/' && Matches(tokens[3..], path, s[k + 1..])
        else exists k :: 0 <= k <= |s| && Run(false, s[..k]) && Matches(tokens[2..], path, s[k..])
      else exists k :: 0 <= k <= |s| && Run(path, s[..k]) && Matches(tokens[1..], path, s[k..])
    else if Is(tokens[0], '?') then s != "" && Fits(path, s[0]) && Matches(tokens[1..], path, s[1..])
    else if Is(tokens[0], '[') then
      var n := ClassEnd(tokens[1..]);
      && n + 1 < |tokens| && s != "" && InClass(Values(tokens[1..n + 1]), s[0]) && (path ==> s[0] != '/')
      && Matches(tokens[n + 2..], path, s[1..])
    else s != "" && s[0] == tokens[0].value && Matches(tokens[1..], path, s[1..])
  }

  // --- Compilation to text ---------------------------------------------------------------------------

  /** What one or more tokens stand for. */
  datatype Piece = Literal(c: char) | AnyChar | AnyRun | AnyPath | AnyDirs | Class(values: string)

  /** How many tokens the first piece takes, and what it is. */
  function FirstPiece(tokens: seq<GlobToken>, path: bool): (r: (Piece, nat))
    requires tokens != []
    ensures 1 <= r.1 <= |tokens| + 1
  {
    if Is(tokens[0], '*') then
      if path && IsStar(tokens, 1) then (if 2 < |tokens| && Is(tokens[2], '/') then (AnyDirs, 3) else (AnyPath, 2))
      else (AnyRun, 1)
    else if Is(tokens[0], '?') then (AnyChar, 1)
    else if Is(tokens[0], '[') then
      var n := ClassEnd(tokens[1..]);
      (Class(Values(tokens[1..n + 1])), n + 2)
    else (Literal(tokens[0].value), 1)
  }

  function Pieces(tokens: seq<GlobToken>, path: bool): seq<Piece>
    decreases |tokens|
  {
    if tokens == [] then []
    else
      var (piece, n) := FirstPiece(tokens, path);
      [piece] + Pieces(if n <= |tokens| then tokens[n..] else [], path)
  }

  /** Characters that `re.escape` escapes. */
  predicate Special(c: char) {
    c in "()[]{}?*+-|^$\\.&~# \t\n\r" || c == 11 as char || c == 12 as char
  }

  function EscapeChar(c: char): string {
    if Special(c) then ['\\', c] else [c]
  }

  function ClassText(values: string): string {
    if values == "" then ""
    else
      (if values[0] == '\\' || values[0] == ']' || values[0] == '^' then ['\\', values[0]] else [values[0]])
      + ClassText(values[1..])
  }

  function PieceText(piece: Piece, path: bool): string {
    match piece
    case Literal(c) => EscapeChar(c)
    case AnyChar => if path then "[^/]" else "."
    case AnyRun => if path then "[^/]*" else ".*"
    case AnyPath => ".*"
    case AnyDirs => "(?:.*/)?"
    case Class(values) => (if path then "(?!/)" else "") + "[" + ClassText(values) + "]"
  }

  function PiecesText(pieces: seq<Piece>, path: bool): string {
    if pieces == [] then "" else PieceText(pieces[0], path) + PiecesText(pieces[1..], path)
  }

  lemma {:induction false} OutsideContent(tokens: seq<GlobToken>, a: nat, b: nat)
    ensures Validate(tokens, false, a) == Validate(tokens, false, b)
  {
    if tokens != [] && (tokens[0].escaped || (tokens[0].value != '[' && tokens[0].value != ']')) {
      OutsideContent(tokens[1..], a, b);
    }
  }

  /** A valid class is closed and has members, and what follows it is valid. */
  lemma {:induction false} ClassIsClosed(tokens: seq<GlobToken>, content: nat)
    requires Validate(tokens, true, content).None?
    ensures ClassEnd(tokens) < |tokens| && content + ClassEnd(tokens) > 0
    ensures Validate(tokens[ClassEnd(tokens) + 1..], false, 0).None?
  {
    if Is(tokens[0], ']') {
      OutsideContent(tokens[1..], content, 0);
    } else {
      ClassIsClosed(tokens[1..], content + 1);
      assert tokens[ClassEnd(tokens) + 1..] == tokens[1..][ClassEnd(tokens)..];
    }
  }

  /** The first piece of valid tokens, and the tokens after it. */
  lemma {:induction false} PieceStep(tokens: seq<GlobToken>, path: bool)
    requires tokens != [] && Validate(tokens, false, 0).None?
    ensures
      var (piece, n) := FirstPiece(tokens, path);
      && n <= |tokens| && Validate(tokens[n..], false, 0).None?
      && Pieces(tokens, path) == [piece] + Pieces(tokens[n..], path)
      && (piece.Class? ==> piece.values != "")
  {
    hide ClassEnd;
    if Is(tokens[0], '[') {
      ClassIsClosed(tokens[1..], 0);
      assert tokens[ClassEnd(tokens[1..]) + 2..] == tokens[1..][ClassEnd(tokens[1..]) + 1..];
    } else {
      assert Validate(tokens[1..], false, 0).None? by { if |tokens| > 1 { OutsideContent(tokens[1..], 0, 1); } }
      assert |tokens| > 1 ==> tokens[1..][1..] == tokens[2..];
      assert |tokens| > 2 ==> tokens[2..][1..] == tokens[3..];
      assert IsStar(tokens, 1) ==> Validate(tokens[2..], false, 0).None?;
    }
  }

  /** The text of the expression between `^` and `$`. */
  function Body(tokens: seq<GlobToken>, path: bool): string {
    PiecesText(Pieces(tokens, path), path)
  }

  lemma BodyStep(tokens: seq<GlobToken>, path: bool)
    requires tokens != [] && Validate(tokens, false, 0).None?
    ensures
      var (piece, n) := FirstPiece(tokens, path);
      && n <= |tokens| && Validate(tokens[n..], false, 0).None?
      && Body(tokens, path) == PieceText(piece, path) + Body(tokens[n..], path)
  {
    PieceStep(tokens, path);
    hide Validate, Pieces, FirstPiece, PieceText;
    var (piece, n) := FirstPiece(tokens, path);
    assert Pieces(tokens, path)[1..] == Pieces(tokens[n..], path);
  }

  lemma EmptyBody(path: bool)
    ensures Body([], path) == ""
  {
  }

  lemma TextStep(tokens: seq<GlobToken>, index: nat, path: bool, parts: string)
    requires index < |tokens| && Validate(tokens[index..], false, 0).None?
    ensures
      var (piece, n) := FirstPiece(tokens[index..], path);
      && index + n <= |tokens| && Validate(tokens[index + n..], false, 0).None?
      && (parts + PieceText(piece, path)) + Body(tokens[index + n..], path) == parts + Body(tokens[index..], path)
  {
    hide *;
    var rest := tokens[index..];
    BodyStep(rest, path);
    var n := FirstPiece(rest, path).1;
    assert rest[n..] == tokens[index + n..];
  }

  method CompileGlob(tokens: seq<GlobToken>, path: bool) returns (text: string)
    requires Validate(tokens, false, 0).None?
    ensures text == "^" + Body(tokens, path) + "$"
  {
    hide *;
    var parts, index := "^", 0;
    assert tokens[0..] == tokens;
    while index < |tokens|
      invariant 0 <= index <= |tokens|
      invariant Validate(tokens[index..], false, 0).None?
      invariant parts + Body(tokens[index..], path) == "^" + Body(tokens, path)
    {
      TextStep(tokens, index, path, parts);
      var text, taken := CompilePiece(tokens, index, path);
      parts, index := parts + text, index + taken;
    }
    assert tokens[index..] == [];
    EmptyBody(path);
    assert parts + "" == parts;
    return parts + "$";
  }

  /** One turn of the loop: the text of the piece that begins at `index`, and its number of tokens. */
  method CompilePiece(tokens: seq<GlobToken>, index: nat, path: bool) returns (text: string, taken: nat)
    requires index < |tokens|
    ensures (text, taken) == (PieceText(FirstPiece(tokens[index..], path).0, path), FirstPiece(tokens[index..], path).1)
  {
    ghost var rest := tokens[index..];
    var token := tokens[index];
    taken := 1;
    if token.escaped {
      text := EscapeChar(token.value);
    } else if token.value == '*' {
      if path && index + 1 < |tokens| && tokens[index + 1] == GlobToken('*', false) {
        if index + 2 < |tokens| && tokens[index + 2] == GlobToken('/', false) {
          text, taken := "(?:.*/)?", 3;
        } else {
          text, taken := ".*", 2;
        }
      } else {
        text := if path then "[^/]*" else ".*";
      }
    } else if token.value == '?' {
      text := if path then "[^/]" else ".";
    } else if token.value == '[' {
      var members, end := CompileClass(tokens, index + 1);
      ghost var n := ClassEnd(rest[1..]);
      assert rest[1..] == tokens[index + 1..] && rest[1..n + 1] == tokens[index + 1..end];
      assert FirstPiece(rest, path) == (Class(Values(rest[1..n + 1])), n + 2);
      text := (if path then "(?!/)" else "") + "[" + members + "]";
      taken := end - index + 1;
    } else {
      text := EscapeChar(token.value);
    }
  }

  /** The members of the class that begins at `start`. */
  method CompileClass(tokens: seq<GlobToken>, start: nat) returns (text: string, end: nat)
    requires start <= |tokens|
    ensures end == start + ClassEnd(tokens[start..]) && text == ClassText(Values(tokens[start..end]))
  {
    text, end := "", start;
    while end < |tokens| && !(tokens[end].value == ']' && !tokens[end].escaped)
      invariant start <= end <= |tokens|
      invariant ClassEnd(tokens[start..]) == end - start + ClassEnd(tokens[end..])
      invariant text == ClassText(Values(tokens[start..end]))
    {
      hide ClassEnd, ClassText, Values;
      var value := tokens[end].value;
      ClassStep(tokens, start, end);
      text := text + if value == '\\' || value == ']' || value == '^' then ['\\', value] else [value];
      end := end + 1;
    }
  }

  /** One turn of the loop over a class. */
  lemma ClassStep(tokens: seq<GlobToken>, start: nat, end: nat)
    requires start <= end < |tokens|
    ensures !Is(tokens[end], ']') ==> ClassEnd(tokens[end..]) == 1 + ClassEnd(tokens[end + 1..])
    ensures var value := tokens[end].value;
      ClassText(Values(tokens[start..end + 1]))
      == ClassText(Values(tokens[start..end])) + if value == '\\' || value == ']' || value == '^' then ['\\', value]
          else [value]
  {
    hide ClassText, Is;
    ClassTextMore(Values(tokens[start..end]), tokens[end].value);
    assert Values(tokens[start..end + 1]) == Values(tokens[start..end]) + [tokens[end].value];
    assert tokens[end..][1..] == tokens[end + 1..];
  }

  lemma {:induction false} ClassTextMore(values: string, value: char)
    ensures ClassText(values + [value])
         == ClassText(values) + if value == '\\' || value == ']' || value == '^' then ['\\', value] else [value]
  {
    if values != "" {
      assert (values + [value])[1..] == values[1..] + [value];
      ClassTextMore(values[1..], value);
    }
  }
}
