/** A comment stripper for JavaScript source (js-comment-strip-fixture.js).

    `Lex` cuts a source text into the pieces the stripper distinguishes.  The loop of
    `StripJsComments` is proved to print those pieces with every comment replaced by one
    space.  The main result, `RelexingFindsTheSamePieces`, says that cutting the printed
    text again finds the same pieces: no string, regex or division is read differently
    because a comment is gone, and no new comment appears. */
module CommentStripper {

  datatype Piece =
    | Comment(text: string)
    | StringLiteral(text: string)
    | RegexLiteral(text: string)
    | Plain(c: char)

  /** The last non-blank character seen, which decides whether a slash divides. */
  datatype Significant = Nothing | After(c: char)

  /** The characters matched by the JavaScript class `\s`. */
  predicate IsSpace(c: char) {
    || '\t' <= c <= '\r'
    || c == ' '
    || c == '\U{00A0}'
    || c == '\U{1680}'
    || '\U{2000}' <= c <= '\U{200A}'
    || c == '\U{2028}'
    || c == '\U{2029}'
    || c == '\U{202F}'
    || c == '\U{205F}'
    || c == '\U{3000}'
    || c == '\U{FEFF}'
  }

  predicate IsQuote(c: char) {
    c == '"' || c == '\'' || c == '`'
  }

  /** A slash after one of these divides; after anything else it opens a regex. */
  predicate EndsValue(prev: Significant) {
    prev.After? &&
    var c := prev.c;
    || 'A' <= c <= 'Z'
    || 'a' <= c <= 'z'
    || '0' <= c <= '9'
    || c == '_' || c == '$' || c == ')' || c == ']' || c == '}'
  }

  function Next(c: char, prev: Significant): Significant {
    if IsSpace(c) then prev else After(c)
  }

  predicate OpensLineComment(s: string) {
    |s| >= 2 && s[0] == '/' && s[1] == '/'
  }

  predicate OpensBlockComment(s: string) {
    |s| >= 2 && s[0] == '/' && s[1] == '*'
  }

  predicate OpensRegex(s: string, prev: Significant) {
    s != [] && s[0] == '/' && !OpensLineComment(s) && !OpensBlockComment(s) && !EndsValue(prev)
  }

  /** Where a line comment stops: at the newline, which stays. */
  function LineEnd(s: string, i: nat): (n: nat)
    requires i <= |s|
    ensures i <= n <= |s|
    decreases |s| - i
  {
    if i == |s| || s[i] == '\n' then i else LineEnd(s, i + 1)
  }

  /** Where a block comment stops: past its star and slash, or at the end of the text. */
  function BlockEnd(s: string, i: nat): (n: nat)
    requires i <= |s|
    ensures i <= n <= |s|
    decreases |s| - i
  {
    if i == |s| then i
    else if s[i] == '*' && i + 1 < |s| && s[i + 1] == '/' then i + 2
    else BlockEnd(s, i + 1)
  }

  /** Where a string stops: past the unescaped quote, or at the end of the text. */
  function StringEnd(s: string, i: nat, quote: char): (n: nat)
    requires i <= |s|
    ensures i <= n <= |s|
    decreases |s| - i
  {
    if i == |s| then i
    else if s[i] == '\\' then (if i + 1 < |s| then StringEnd(s, i + 2, quote) else |s|)
    else if s[i] == quote then i + 1
    else StringEnd(s, i + 1, quote)
  }

  /** Where a regex stops: past the unescaped slash outside a class, or before a newline. */
  function RegexEnd(s: string, i: nat, inClass: bool): (n: nat)
    requires i <= |s|
    ensures i <= n <= |s|
    decreases |s| - i
  {
    if i == |s| then i
    else if s[i] == '\\' then (if i + 1 < |s| then RegexEnd(s, i + 2, inClass) else |s|)
    else if s[i] == '[' then RegexEnd(s, i + 1, true)
    else if s[i] == ']' then RegexEnd(s, i + 1, false)
    else if s[i] == '/' && !inClass then i + 1
    else if s[i] == '\n' then i
    else RegexEnd(s, i + 1, inClass)
  }

  function Lex(s: string, prev: Significant): seq<Piece>
    decreases |s|
  {
    if s == [] then []
    else if OpensLineComment(s) then
      var n := LineEnd(s, 2);
      [Comment(s[..n])] + Lex(s[n..], prev)
    else if OpensBlockComment(s) then
      var n := BlockEnd(s, 2);
      [Comment(s[..n])] + Lex(s[n..], prev)
    else if IsQuote(s[0]) then
      var n := StringEnd(s, 1, s[0]);
      [StringLiteral(s[..n])] + Lex(s[n..], After(s[0]))
    else if OpensRegex(s, prev) then
      var n := RegexEnd(s, 1, false);
      [RegexLiteral(s[..n])] + Lex(s[n..], After('/'))
    else
      [Plain(s[0])] + Lex(s[1..], Next(s[0], prev))
  }

  function Source(p: Piece): string {
    match p
    case Plain(c) => [c]
    case _ => p.text
  }

  function Printed(p: Piece): string {
    if p.Comment? then " " else Source(p)
  }

  function PrintAll(ps: seq<Piece>): string {
    if ps == [] then "" else Printed(ps[0]) + PrintAll(ps[1..])
  }

  function SourceAll(ps: seq<Piece>): string {
    if ps == [] then "" else Source(ps[0]) + SourceAll(ps[1..])
  }

  function Blank(p: Piece): Piece {
    if p.Comment? then Plain(' ') else p
  }

  function BlankAll(ps: seq<Piece>): seq<Piece> {
    if ps == [] then [] else [Blank(ps[0])] + BlankAll(ps[1..])
  }

  /** The text without its comments. */
  function Stripped(s: string): string {
    PrintAll(Lex(s, Nothing))
  }

  // ----- What the pieces are, character by character -----

  /** How many backslashes stand right before index i, after the opening character of a literal. */
  function Backslashes(s: string, i: nat): nat
    requires i <= |s|
  {
    if i <= 1 || s[i - 1] != '\\' then 0 else 1 + Backslashes(s, i - 1)
  }

  predicate Unescaped(s: string, i: nat)
    requires i <= |s|
  {
    Backslashes(s, i) % 2 == 0
  }

  /** The quote that opened the string stands here again, unescaped. */
  predicate ClosesString(s: string, i: int) {
    1 <= i < |s| && s[i] == s[0] && Unescaped(s, i)
  }

  /** A string ends with the first quote that closes it, or with the text. */
  ghost predicate IsString(s: string, n: nat) {
    && 1 <= n <= |s| && (s[0] == '"' || s[0] == '\'' || s[0] == '`')
    && (forall i :: i < n - 1 ==> !ClosesString(s, i))
    && (ClosesString(s, n - 1) || n == |s|)
  }

  /** An unescaped opening bracket stands before, and no unescaped closing one since. */
  ghost predicate InClass(s: string, i: nat)
    requires i <= |s|
  {
    exists k :: 1 <= k < i && OpensClassFor(s, k, i)
  }

  ghost predicate OpensClassFor(s: string, k: nat, i: nat)
    requires k < i <= |s|
  {
    && s[k] == '[' && Unescaped(s, k)
    && forall j :: k < j < i ==> !(s[j] == ']' && Unescaped(s, j))
  }

  ghost predicate ClosesRegex(s: string, i: int) {
    1 <= i < |s| && s[i] == '/' && Unescaped(s, i) && !InClass(s, i)
  }

  predicate BreaksRegex(s: string, i: int) {
    1 <= i < |s| && s[i] == '\n' && Unescaped(s, i)
  }

  /** A regex ends with the first slash that is neither escaped nor in a class, before an unescaped
      newline, or with the text. */
  ghost predicate IsRegex(s: string, n: nat) {
    && 1 <= n <= |s| && s[0] == '/'
    && (forall i :: i < n - 1 ==> !ClosesRegex(s, i) && !BreaksRegex(s, i))
    && (ClosesRegex(s, n - 1) || (!BreaksRegex(s, n - 1) && (n == |s| || BreaksRegex(s, n))))
  }

  ghost predicate IsLineComment(s: string, n: nat) {
    && 2 <= n <= |s| && s[0] == '/' && s[1] == '/'
    && (forall i :: 2 <= i < n ==> s[i] != '\n')
    && (n == |s| || s[n] == '\n')
  }

  predicate ClosesComment(s: string, i: int) {
    2 <= i < |s| - 1 && s[i] == '*' && s[i + 1] == '/'
  }

  ghost predicate IsBlockComment(s: string, n: nat) {
    && 2 <= n <= |s| && s[0] == '/' && s[1] == '*'
    && (forall i :: i < n - 2 ==> !ClosesComment(s, i))
    && (ClosesComment(s, n - 2) || n == |s|)
  }

  /** A slash here divides: before it stands a letter, a digit, an underscore, a dollar sign or a
      closing bracket. */
  predicate Divides(prev: Significant) {
    prev.After? && (prev.c in "_$)]}" || 'A' <= prev.c <= 'Z' || 'a' <= prev.c <= 'z' || '0' <= prev.c <= '9')
  }

  /** The piece that stands at the beginning of a text. */
  ghost predicate IsFirst(p: Piece, s: string, prev: Significant) {
    match p
    case Comment(text) => text <= s && (IsLineComment(s, |text|) || IsBlockComment(s, |text|))
    case StringLiteral(text) => text <= s && IsString(s, |text|)
    case RegexLiteral(text) => text <= s && IsRegex(s, |text|) && OpensNoComment(s) && !Divides(prev)
    case Plain(c) =>
      && s != "" && s[0] == c && c != '"' && c != '\'' && c != '`'
      && (c == '/' ==> OpensNoComment(s) && Divides(prev))
  }

  predicate OpensNoComment(s: string) {
    |s| < 2 || (s[1] != '/' && s[1] != '*')
  }

  /** The last character that is no blank, comments aside; a regex counts as its slash. */
  function Following(p: Piece, prev: Significant): Significant {
    match p
    case Comment(_) => prev
    case StringLiteral(text) => if text == "" then prev else After(text[0])
    case RegexLiteral(_) => After('/')
    case Plain(c) => if IsBlank(c as int) then prev else After(c)
  }

  /** The code points that `\s` matches. */
  predicate IsBlank(code: int) {
    9 <= code <= 13 || 0x2000 <= code <= 0x200A
    || code in {0x20, 0xA0, 0x1680, 0x2028, 0x2029, 0x202F, 0x205F, 0x3000, 0xFEFF}
  }

  /** Pieces that follow each other through a text. */
  ghost predicate IsCut(ps: seq<Piece>, s: string, prev: Significant)
    decreases |ps|
  {
    if ps == [] then s == ""
    else
      && IsFirst(ps[0], s, prev) && |Source(ps[0])| <= |s|
      && IsCut(ps[1..], s[|Source(ps[0])|..], Following(ps[0], prev))
  }

  lemma AfterBackslash(s: string, i: nat)
    requires 1 <= i < |s| && s[i] == '\\' && Unescaped(s, i)
    ensures !Unescaped(s, i + 1)
    ensures i + 2 <= |s| ==> Unescaped(s, i + 2)
  {
  }

  lemma AfterOther(s: string, i: nat)
    requires 1 <= i < |s| && s[i] != '\\'
    ensures Unescaped(s, i + 1)
  {
  }

  lemma {:induction false} StringEndsThere(s: string, i: nat)
    requires 1 <= i <= |s| && IsQuote(s[0]) && Unescaped(s, i)
    requires forall j :: j < i ==> !ClosesString(s, j)
    ensures IsString(s, StringEnd(s, i, s[0]))
    decreases |s| - i
  {
    if i < |s| {
      if s[i] == '\\' {
        AfterBackslash(s, i);
        if i + 1 < |s| {
          StringEndsThere(s, i + 2);
        }
      } else if s[i] != s[0] {
        AfterOther(s, i);
        StringEndsThere(s, i + 1);
      }
    }
  }

  lemma ClassStep(s: string, i: nat)
    requires 1 <= i < |s|
    ensures InClass(s, i + 1) <==>
            if s[i] == '[' && Unescaped(s, i) then true
            else if s[i] == ']' && Unescaped(s, i) then false
            else InClass(s, i)
  {
    if s[i] == '[' && Unescaped(s, i) {
      assert OpensClassFor(s, i, i + 1);
    }
    if InClass(s, i) && !(s[i] == ']' && Unescaped(s, i)) {
      var k :| 1 <= k < i && OpensClassFor(s, k, i);
      assert OpensClassFor(s, k, i + 1);
    }
    if InClass(s, i + 1) {
      var k :| 1 <= k < i + 1 && OpensClassFor(s, k, i + 1);
      assert k < i ==> OpensClassFor(s, k, i);
    }
  }

  lemma {:induction false} RegexEndsThere(s: string, i: nat, inClass: bool)
    requires 1 <= i <= |s| && s[0] == '/' && Unescaped(s, i) && inClass == InClass(s, i)
    requires forall j :: j < i ==> !ClosesRegex(s, j) && !BreaksRegex(s, j)
    ensures IsRegex(s, RegexEnd(s, i, inClass))
    decreases |s| - i
  {
    if i < |s| {
      ClassStep(s, i);
      if s[i] == '\\' {
        AfterBackslash(s, i);
        if i + 1 < |s| {
          ClassStep(s, i + 1);
          RegexEndsThere(s, i + 2, inClass);
        }
      } else {
        AfterOther(s, i);
        if s[i] == '[' || s[i] == ']' {
          RegexEndsThere(s, i + 1, s[i] == '[');
        } else if !(s[i] == '/' && !inClass) && s[i] != '\n' {
          RegexEndsThere(s, i + 1, inClass);
        }
      }
    }
  }

  lemma {:induction false} LineEndsThere(s: string, i: nat)
    requires OpensLineComment(s) && 2 <= i <= |s| && forall j :: 2 <= j < i ==> s[j] != '\n'
    ensures IsLineComment(s, LineEnd(s, i))
    decreases |s| - i
  {
    if i < |s| && s[i] != '\n' {
      LineEndsThere(s, i + 1);
    }
  }

  lemma {:induction false} BlockEndsThere(s: string, i: nat)
    requires OpensBlockComment(s) && 2 <= i <= |s| && forall j :: j < i ==> !ClosesComment(s, j)
    ensures IsBlockComment(s, BlockEnd(s, i))
    decreases |s| - i
  {
    if i < |s| && !ClosesComment(s, i) {
      BlockEndsThere(s, i + 1);
    }
  }

  lemma CutGrows(p: Piece, rest: seq<Piece>, s: string, prev: Significant)
    requires IsFirst(p, s, prev) && |Source(p)| <= |s| && IsCut(rest, s[|Source(p)|..], Following(p, prev))
    ensures IsCut([p] + rest, s, prev)
  {
    assert ([p] + rest)[1..] == rest;
  }

  /** The lexer cuts a text into the pieces that its characters ask for. */
  lemma {:induction false} LexIsCut(s: string, prev: Significant)
    ensures IsCut(Lex(s, prev), s, prev)
    decreases |s|
  {
    if s == "" {
    } else if OpensLineComment(s) {
      var n := LineEnd(s, 2);
      LineEndsThere(s, 2);
      LexIsCut(s[n..], prev);
      CutGrows(Comment(s[..n]), Lex(s[n..], prev), s, prev);
    } else if OpensBlockComment(s) {
      var n := BlockEnd(s, 2);
      BlockEndsThere(s, 2);
      LexIsCut(s[n..], prev);
      CutGrows(Comment(s[..n]), Lex(s[n..], prev), s, prev);
    } else if IsQuote(s[0]) {
      var n := StringEnd(s, 1, s[0]);
      StringEndsThere(s, 1);
      LexIsCut(s[n..], After(s[0]));
      CutGrows(StringLiteral(s[..n]), Lex(s[n..], After(s[0])), s, prev);
    } else if OpensRegex(s, prev) {
      var n := RegexEnd(s, 1, false);
      RegexEndsThere(s, 1, false);
      LexIsCut(s[n..], After('/'));
      CutGrows(RegexLiteral(s[..n]), Lex(s[n..], After('/')), s, prev);
    } else {
      LexIsCut(s[1..], Next(s[0], prev));
      CutGrows(Plain(s[0]), Lex(s[1..], Next(s[0], prev)), s, prev);
    }
  }

  lemma StringIsUnique(s: string, m: nat, n: nat)
    requires IsString(s, m) && IsString(s, n)
    ensures m == n
  {
    assert m < n ==> !ClosesString(s, m - 1);
    assert n < m ==> !ClosesString(s, n - 1);
  }

  lemma RegexIsUnique(s: string, m: nat, n: nat)
    requires IsRegex(s, m) && IsRegex(s, n) && m <= n
    ensures m == n
  {
    assert m < n ==> !ClosesRegex(s, m - 1);
  }

  lemma CommentIsUnique(s: string, m: nat, n: nat)
    requires (IsLineComment(s, m) && IsLineComment(s, n)) || (IsBlockComment(s, m) && IsBlockComment(s, n))
    requires m <= n
    ensures m == n
  {
    assert m < n && IsBlockComment(s, n) ==> !ClosesComment(s, m - 2);
  }

  lemma FirstIsUnique(p: Piece, q: Piece, s: string, prev: Significant)
    requires IsFirst(p, s, prev) && IsFirst(q, s, prev)
    ensures p == q
  {
    match p
    case Comment(t) =>
      assert q.Comment?;
      if |t| <= |q.text| { CommentIsUnique(s, |t|, |q.text|); } else { CommentIsUnique(s, |q.text|, |t|); }
    case StringLiteral(t) =>
      assert q.StringLiteral?;
      StringIsUnique(s, |t|, |q.text|);
    case RegexLiteral(t) =>
      assert q.RegexLiteral?;
      if |t| <= |q.text| { RegexIsUnique(s, |t|, |q.text|); } else { RegexIsUnique(s, |q.text|, |t|); }
    case Plain(c) =>
  }

  /** There is no other way to cut a text. */
  lemma {:induction false} CutIsUnique(ps: seq<Piece>, qs: seq<Piece>, s: string, prev: Significant)
    requires IsCut(ps, s, prev) && IsCut(qs, s, prev)
    ensures ps == qs
    decreases |ps|
  {
    if ps != [] && qs != [] {
      FirstIsUnique(ps[0], qs[0], s, prev);
      CutIsUnique(ps[1..], qs[1..], s[|Source(ps[0])|..], Following(ps[0], prev));
      assert ps == [ps[0]] + ps[1..] && qs == [qs[0]] + qs[1..];
    }
  }

  // ----- The scanners look at nothing past the place where they stop -----

  lemma {:induction false} StringEndIsLocal(s: string, t: string, i: nat, quote: char)
    requires i <= |s|
    requires var n := StringEnd(s, i, quote); n < |s| && n <= |t| && s[..n] == t[..n]
    ensures i <= |t| && StringEnd(t, i, quote) == StringEnd(s, i, quote)
    decreases |s| - i
  {
    var n := StringEnd(s, i, quote);
    if i < |s| {
      assert i < n ==> s[i] == s[..n][i] == t[i];
      if s[i] == '\\' {
        StringEndIsLocal(s, t, i + 2, quote);
      } else if s[i] != quote {
        StringEndIsLocal(s, t, i + 1, quote);
      }
    }
  }

  lemma {:induction false} RegexEndIsLocal(s: string, t: string, i: nat, inClass: bool)
    requires i <= |s|
    requires var n := RegexEnd(s, i, inClass);
             n < |s| && n < |t| && s[..n] == t[..n] && (s[n] == '\n' ==> t[n] == '\n')
    ensures RegexEnd(t, i, inClass) == RegexEnd(s, i, inClass)
    decreases |s| - i
  {
    var n := RegexEnd(s, i, inClass);
    assert i < n ==> s[i] == s[..n][i] == t[i];
    if s[i] == '\\' {
      RegexEndIsLocal(s, t, i + 2, inClass);
    } else if s[i] == '[' {
      RegexEndIsLocal(s, t, i + 1, true);
    } else if s[i] == ']' {
      RegexEndIsLocal(s, t, i + 1, false);
    } else if !(s[i] == '/' && !inClass) && s[i] != '\n' {
      RegexEndIsLocal(s, t, i + 1, inClass);
    }
  }

  /** A regex that stops without its slash stops at a newline or at the end of the text. */
  lemma {:induction false} RegexStopsAtSlashOrNewline(s: string, i: nat, inClass: bool)
    requires i <= |s|
    ensures var n := RegexEnd(s, i, inClass);
            n == |s| || s[n] == '\n' || (i < n && s[n - 1] == '/')
    decreases |s| - i
  {
    if i < |s| {
      if s[i] == '\\' {
        if i + 1 < |s| { RegexStopsAtSlashOrNewline(s, i + 2, inClass); }
      } else if s[i] == '[' {
        RegexStopsAtSlashOrNewline(s, i + 1, true);
      } else if s[i] == ']' {
        RegexStopsAtSlashOrNewline(s, i + 1, false);
      } else if !(s[i] == '/' && !inClass) && s[i] != '\n' {
        RegexStopsAtSlashOrNewline(s, i + 1, inClass);
      }
    }
  }

  // ----- What the printed text starts with -----

  /** The printed text starts like the source, or with a blank where a comment started. */
  lemma PrintedFirstCharacter(s: string, prev: Significant)
    ensures var out := PrintAll(Lex(s, prev));
            && (s == "" <==> out == "")
            && (s != "" ==> out[0] == if OpensLineComment(s) || OpensBlockComment(s) then ' ' else s[0])
  {
    if s != "" && !OpensLineComment(s) && !OpensBlockComment(s) {
      if IsQuote(s[0]) {
        assert |s[..StringEnd(s, 1, s[0])]| >= 1;
      } else if OpensRegex(s, prev) {
        assert |s[..RegexEnd(s, 1, false)]| >= 1;
      }
    }
  }

  // ----- One piece in front of an already printed rest -----

  lemma StringInFront(s: string, rest: string)
    requires s != "" && IsQuote(s[0])
    requires var n := StringEnd(s, 1, s[0]); n == |s| ==> rest == ""
    ensures var n := StringEnd(s, 1, s[0]); StringEnd(s[..n] + rest, 1, s[0]) == n
  {
    var n := StringEnd(s, 1, s[0]);
    if n == |s| {
      assert s[..n] + rest == s;
    } else {
      StringEndIsLocal(s, s[..n] + rest, 1, s[0]);
    }
  }

  lemma RegexInFront(s: string, prev: Significant)
    requires OpensRegex(s, prev)
    ensures var n := RegexEnd(s, 1, false);
            var t := s[..n] + PrintAll(Lex(s[n..], After('/')));
            OpensRegex(t, prev) && RegexEnd(t, 1, false) == n
  {
    var n := RegexEnd(s, 1, false);
    var rest := PrintAll(Lex(s[n..], After('/')));
    var t := s[..n] + rest;
    PrintedFirstCharacter(s[n..], After('/'));
    if n == |s| {
      assert t == s;
    } else {
      assert t[n] == rest[0];
      assert |s| >= 2;
      assert n == 1 ==> s[n] == '\n';
      assert 1 < n ==> t[1] == s[1];
      RegexEndIsLocal(s, t, 1, false);
    }
  }

  /** A character that is neither comment, string nor regex stays so in front of the rest. */
  lemma PlainInFront(s: string, prev: Significant)
    requires s != "" && !OpensLineComment(s) && !OpensBlockComment(s)
    requires !IsQuote(s[0]) && !OpensRegex(s, prev)
    ensures var rest := PrintAll(Lex(s[1..], Next(s[0], prev)));
            Lex([s[0]] + rest, prev) == [Plain(s[0])] + Lex(rest, Next(s[0], prev))
  {
    var rest := PrintAll(Lex(s[1..], Next(s[0], prev)));
    PrintedFirstCharacter(s[1..], Next(s[0], prev));
    var t := [s[0]] + rest;
    assert t[1..] == rest;
    if s[0] == '/' && rest != "" {
      assert t[1] == rest[0];
      assert s[1..][0] == s[1];
      assert rest[0] != '/' && rest[0] != '*';
    }
  }

  // ----- Main results -----

  /** Cutting the printed text again finds the same pieces, each comment now one blank. */
  lemma {:induction false} RelexingFindsTheSamePieces(s: string, prev: Significant)
    ensures Lex(PrintAll(Lex(s, prev)), prev) == BlankAll(Lex(s, prev))
    decreases |s|
  {
    if s == "" {
    } else if OpensLineComment(s) || OpensBlockComment(s) {
      var n := if OpensLineComment(s) then LineEnd(s, 2) else BlockEnd(s, 2);
      RelexingFindsTheSamePieces(s[n..], prev);
      var rest := PrintAll(Lex(s[n..], prev));
      var t := " " + rest;
      assert t[0] == ' ' && t[1..] == rest;
      assert PrintAll(Lex(s, prev)) == t;
    } else if IsQuote(s[0]) {
      var n := StringEnd(s, 1, s[0]);
      RelexingFindsTheSamePieces(s[n..], After(s[0]));
      var rest := PrintAll(Lex(s[n..], After(s[0])));
      PrintedFirstCharacter(s[n..], After(s[0]));
      StringInFront(s, rest);
      var t := s[..n] + rest;
      assert t[0] == s[0] && t[..n] == s[..n] && t[n..] == rest;
      assert PrintAll(Lex(s, prev)) == t;
    } else if OpensRegex(s, prev) {
      var n := RegexEnd(s, 1, false);
      RelexingFindsTheSamePieces(s[n..], After('/'));
      var rest := PrintAll(Lex(s[n..], After('/')));
      RegexInFront(s, prev);
      var t := s[..n] + rest;
      assert t[..n] == s[..n] && t[n..] == rest;
      assert PrintAll(Lex(s, prev)) == t;
    } else {
      RelexingFindsTheSamePieces(s[1..], Next(s[0], prev));
      PlainInFront(s, prev);
      assert PrintAll(Lex(s, prev)) == [s[0]] + PrintAll(Lex(s[1..], Next(s[0], prev)));
    }
  }

  lemma {:induction false} BlankAllIsPointwise(ps: seq<Piece>)
    ensures |BlankAll(ps)| == |ps|
    ensures forall k :: 0 <= k < |ps| ==> BlankAll(ps)[k] == Blank(ps[k])
  {
    if ps != [] {
      BlankAllIsPointwise(ps[1..]);
    }
  }

  lemma {:induction false} PrintingBlanksChangesNothing(ps: seq<Piece>)
    ensures PrintAll(BlankAll(ps)) == PrintAll(ps)
  {
    if ps != [] {
      PrintingBlanksChangesNothing(ps[1..]);
      assert BlankAll(ps)[1..] == BlankAll(ps[1..]);
    }
  }

  /** Stripping twice is stripping once. */
  lemma StrippingIsIdempotent(s: string)
    ensures Stripped(Stripped(s)) == Stripped(s)
  {
    RelexingFindsTheSamePieces(s, Nothing);
    PrintingBlanksChangesNothing(Lex(s, Nothing));
  }

  /** The stripped text holds no comment, and its literals are those of the source, in order. */
  lemma StrippedTextHasNoComment(s: string)
    ensures var before, after := Lex(s, Nothing), Lex(Stripped(s), Nothing);
            && |after| == |before|
            && (forall k :: 0 <= k < |after| ==> !after[k].Comment?)
            && (forall k :: 0 <= k < |after| && !before[k].Comment? ==> after[k] == before[k])
  {
    RelexingFindsTheSamePieces(s, Nothing);
    BlankAllIsPointwise(Lex(s, Nothing));
  }

  lemma CutPiece(s: string, n: nat, p: Piece, rest: seq<Piece>)
    requires n <= |s| && Source(p) == s[..n] && SourceAll(rest) == s[n..]
    ensures SourceAll([p] + rest) == s
  {
    assert ([p] + rest)[1..] == rest;
    assert s[..n] + s[n..] == s;
  }

  /** Nothing of the source is lost by cutting it into pieces. */
  lemma {:induction false} PiecesSpellTheSource(s: string, prev: Significant)
    ensures SourceAll(Lex(s, prev)) == s
    decreases |s|
  {
    if s == "" {
    } else if OpensLineComment(s) {
      var n := LineEnd(s, 2);
      PiecesSpellTheSource(s[n..], prev);
      CutPiece(s, n, Comment(s[..n]), Lex(s[n..], prev));
    } else if OpensBlockComment(s) {
      var n := BlockEnd(s, 2);
      PiecesSpellTheSource(s[n..], prev);
      CutPiece(s, n, Comment(s[..n]), Lex(s[n..], prev));
    } else if IsQuote(s[0]) {
      var n := StringEnd(s, 1, s[0]);
      PiecesSpellTheSource(s[n..], After(s[0]));
      CutPiece(s, n, StringLiteral(s[..n]), Lex(s[n..], After(s[0])));
    } else if OpensRegex(s, prev) {
      var n := RegexEnd(s, 1, false);
      PiecesSpellTheSource(s[n..], After('/'));
      CutPiece(s, n, RegexLiteral(s[..n]), Lex(s[n..], After('/')));
    } else {
      PiecesSpellTheSource(s[1..], Next(s[0], prev));
      CutPiece(s, 1, Plain(s[0]), Lex(s[1..], Next(s[0], prev)));
    }
  }

  /** Every comment is at least two characters long, so each one shortens the text. */
  lemma {:induction false} StrippingNeverLengthens(s: string, prev: Significant)
    ensures |PrintAll(Lex(s, prev))| <= |s|
    ensures |PrintAll(Lex(s, prev))| == |s| ==> forall p :: p in Lex(s, prev) ==> !p.Comment?
    decreases |s|
  {
    if s == "" {
    } else if OpensLineComment(s) {
      StrippingNeverLengthens(s[LineEnd(s, 2)..], prev);
    } else if OpensBlockComment(s) {
      StrippingNeverLengthens(s[BlockEnd(s, 2)..], prev);
    } else if IsQuote(s[0]) {
      StrippingNeverLengthens(s[StringEnd(s, 1, s[0])..], After(s[0]));
    } else if OpensRegex(s, prev) {
      StrippingNeverLengthens(s[RegexEnd(s, 1, false)..], After('/'));
    } else {
      StrippingNeverLengthens(s[1..], Next(s[0], prev));
    }
  }

  // ----- The loop -----

  /** What is left to read at index i, which a block comment or an escape may move past the end. */
  function From(s: string, i: nat): string {
    if i <= |s| then s[i..] else ""
  }

  /** The character and, unless the text ends there, the one it escapes. */
  function Escaped(s: string, i: nat): string
    requires i < |s|
  {
    [s[i]] + (if i + 1 < |s| then [s[i + 1]] else "")
  }

  /** The text copied so far; an escape at the very end takes the index past the text. */
  ghost predicate IsCopied(s: string, start: nat, i: nat, text: string) {
    start < i && start <= |s| && text == s[start..if i <= |s| then i else |s|]
  }

  lemma OneMoreCopied(s: string, start: nat, i: nat, text: string)
    requires IsCopied(s, start, i, text) && i < |s|
    ensures IsCopied(s, start, i + 1, text + [s[i]]) && IsCopied(s, start, i + 2, text + Escaped(s, i))
  {
  }

  lemma CopiedPiece(s: string, start: nat, i: nat, text: string, n: nat)
    requires IsCopied(s, start, i, text) && n == (if i <= |s| then i else |s|) - start
    ensures text == s[start..][..n] && From(s, i) == s[start..][n..]
  {
  }

  method CopyString(s: string, start: nat) returns (i: nat, text: string)
    requires start < |s|
    ensures start < i
    ensures var n := StringEnd(s[start..], 1, s[start]);
            text == s[start..][..n] && From(s, i) == s[start..][n..]
  {
    var quote := s[start];
    ghost var rest := s[start..];
    ghost var n := StringEnd(rest, 1, quote);
    text, i := [quote], start + 1;
    while i < |s|
      invariant IsCopied(s, start, i, text)
      invariant if i <= |s| then StringEnd(rest, i - start, quote) == n else n == |rest|
      decreases |s| - i
    {
      assert rest[i - start] == s[i];
      OneMoreCopied(s, start, i, text);
      if s[i] == '\\' {
        text, i := text + Escaped(s, i), i + 2;
        continue;
      }
      text := text + [s[i]];
      if s[i] == quote {
        i := i + 1;
        break;
      }
      i := i + 1;
    }
    CopiedPiece(s, start, i, text, n);
  }

  method CopyRegex(s: string, start: nat) returns (i: nat, text: string)
    requires start < |s|
    ensures start < i
    ensures var n := RegexEnd(s[start..], 1, false);
            text == s[start..][..n] && From(s, i) == s[start..][n..]
  {
    ghost var rest := s[start..];
    ghost var n := RegexEnd(rest, 1, false);
    text, i := [s[start]], start + 1;
    var inClass := false;
    while i < |s|
      invariant IsCopied(s, start, i, text)
      invariant if i <= |s| then RegexEnd(rest, i - start, inClass) == n else n == |rest|
      decreases |s| - i
    {
      assert rest[i - start] == s[i];
      OneMoreCopied(s, start, i, text);
      if s[i] == '\\' {
        text, i := text + Escaped(s, i), i + 2;
        continue;
      }
      if s[i] == '[' {
        inClass := true;
      } else if s[i] == ']' {
        inClass := false;
      } else if s[i] == '/' && !inClass {
        text, i := text + [s[i]], i + 1;
        break;
      } else if s[i] == '\n' {
        break;
      }
      text, i := text + [s[i]], i + 1;
    }
    CopiedPiece(s, start, i, text, n);
  }

  method SkipLineComment(s: string, start: nat) returns (i: nat)
    requires start < |s| && OpensLineComment(s[start..])
    ensures start < i <= |s| && s[i..] == s[start..][LineEnd(s[start..], 2)..]
  {
    ghost var rest := s[start..];
    i := start;
    while i < |s| && s[i] != '\n'
      invariant start <= i <= |s|
      invariant start + 2 <= i ==> LineEnd(rest, i - start) == LineEnd(rest, 2)
    {
      assert i < start + 2 ==> rest[i - start] == '/';
      i := i + 1;
    }
  }

  method SkipBlockComment(s: string, start: nat) returns (i: nat)
    requires start < |s| && OpensBlockComment(s[start..])
    ensures start < i && From(s, i) == s[start..][BlockEnd(s[start..], 2)..]
  {
    ghost var rest := s[start..];
    i := start + 2;
    while i < |s| && !(s[i] == '*' && i + 1 < |s| && s[i + 1] == '/')
      invariant start + 2 <= i <= |s|
      invariant BlockEnd(rest, i - start) == BlockEnd(rest, 2)
    {
      i := i + 1;
    }
    i := i + 2;
  }

  /** Printing one more piece. */
  lemma PrintStep(out: string, p: Piece, ps: seq<Piece>)
    ensures out + PrintAll([p] + ps) == (out + Printed(p)) + PrintAll(ps)
  {
  }

  lemma StrippedIsCut(s: string)
    ensures exists ps :: IsCut(ps, s, Nothing) && Stripped(s) == PrintAll(ps)
  {
    LexIsCut(s, Nothing);
  }

  method StripJsComments(s: string) returns (out: string)
    ensures out == Stripped(s)
    ensures exists ps :: IsCut(ps, s, Nothing) && out == PrintAll(ps)
  {
    out := "";
    var i := 0;
    var prevSignificant := Nothing;
    while i < |s|
      invariant Stripped(s) == out + PrintAll(Lex(From(s, i), prevSignificant))
      decreases |s| - i
    {
      ghost var rest, todo := s[i..], Lex(s[i..], prevSignificant);
      PrintStep(out, todo[0], todo[1..]);
      var c := s[i];
      if c == '/' && i + 1 < |s| && s[i + 1] == '/' {
        i := SkipLineComment(s, i);
        out := out + " ";
      } else if c == '/' && i + 1 < |s| && s[i + 1] == '*' {
        i := SkipBlockComment(s, i);
        out := out + " ";
      } else if IsQuote(c) {
        var text;
        i, text := CopyString(s, i);
        out := out + text;
        prevSignificant := After(c);
      } else if c == '/' && !EndsValue(prevSignificant) {
        var text;
        i, text := CopyRegex(s, i);
        out := out + text;
        prevSignificant := After('/');
      } else {
        prevSignificant := Next(c, prevSignificant);
        out := out + [c];
        i := i + 1;
        assert From(s, i) == rest[1..];
      }
      assert todo[1..] == Lex(From(s, i), prevSignificant);
    }
    StrippedIsCut(s);
  }
}
