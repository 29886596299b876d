/** The scanner that refuses rule files with an include directive.

    The reference is a lexical grammar: a text is cut into spaces, comments, quoted texts, regular
    expressions, words and symbols, in exactly one way. The scanner answers whether some word folds to
    `include` where no brace is open. */
module YaraScanner {

  /** Python's character classes and case folding. */
  datatype Alphabet = Alphabet(isSpace: char -> bool, isAlpha: char -> bool, isAlnum: char -> bool,
      fold: string -> string)

  /** The punctuation the scanner gives a meaning to is neither space nor letter. */
  predicate Sensible(a: Alphabet) {
    && (forall c :: c in "/\"{}=_" ==> !a.isSpace(c))
    && (forall c :: c in "/\"{}=" ==> !a.isAlpha(c))
    && (forall c :: a.isAlpha(c) ==> !a.isSpace(c))
  }

  predicate StartsWord(a: Alphabet, c: char) {
    a.isAlpha(c) || c == '_'
  }

  predicate InWord(a: Alphabet, c: char) {
    a.isAlnum(c) || c == '_'
  }

  predicate At(s: string, k: nat, c: char) {
    k < |s| && s[k] == c
  }

  // ---- the grammar -------------------------------------------------------------------------

  datatype Kind = Space | LineComment | BlockComment | Text | Regex | Word | Symbol

  datatype Lexeme = Lexeme(kind: Kind, text: string)

  /** The end of a line comment: everything up to and including the first newline. */
  predicate LineEnd(s: string) {
    s != [] && s[|s| - 1] == '\n' && '\n' !in s[..|s| - 1]
  }

  predicate StarSlash(s: string, k: nat) {
    k + 1 < |s| && s[k] == '*' && s[k + 1] == '/'
  }

  /** The end of a block comment: everything up to and including the first star-slash. */
  predicate BlockEnd(s: string) {
    |s| >= 2 && StarSlash(s, |s| - 2) && forall k :: 0 <= k < |s| - 2 ==> !StarSlash(s, k)
  }

  /** Escaped pairs and other characters up to and including the closing quote. */
  predicate TextEnd(s: string) {
    if s == [] then false
    else if s[0] == '\\' then |s| >= 2 && TextEnd(s[2..])
    else if s[0] == '"' then |s| == 1
    else TextEnd(s[1..])
  }

  predicate OpenText(s: string) {
    if s == [] then true
    else if s[0] == '\\' then |s| < 2 || OpenText(s[2..])
    else if s[0] == '"' then false
    else OpenText(s[1..])
  }

  /** Whether a character leaves the scanner inside a character class. */
  predicate ClassAfter(c: char, inClass: bool) {
    c == '[' || (c != ']' && inClass)
  }

  /** Escaped pairs, classes and other characters up to and including the first slash outside a class. */
  predicate RegexEnd(s: string, inClass: bool) {
    if s == [] then false
    else if s[0] == '\\' then |s| >= 2 && RegexEnd(s[2..], inClass)
    else if s[0] == '/' && !inClass then |s| == 1
    else RegexEnd(s[1..], ClassAfter(s[0], inClass))
  }

  predicate OpenRegex(s: string, inClass: bool) {
    if s == [] then true
    else if s[0] == '\\' then |s| < 2 || OpenRegex(s[2..], inClass)
    else if s[0] == '/' && !inClass then false
    else OpenRegex(s[1..], ClassAfter(s[0], inClass))
  }

  predicate AllInWord(a: Alphabet, s: string) {
    forall i :: 0 <= i < |s| ==> InWord(a, s[i])
  }

  /** The next character after the first one is a slash or a star. */
  predicate OpensComment(text: string, rest: string) {
    if |text| >= 2 then text[1] in "/*" else rest != [] && rest[0] in "/*"
  }

  /** `l` is the lexeme at the start of `l.text + rest`; `pattern` says whether a slash opens a regular
      expression here. Comments, texts and regular expressions are closed, or run to the end. */
  predicate ValidLexeme(a: Alphabet, l: Lexeme, rest: string, pattern: bool) {
    l.text != []
    && match l.kind
       case Space => |l.text| == 1 && a.isSpace(l.text[0])
       case LineComment =>
         |l.text| >= 2 && l.text[..2] == "//" && (LineEnd(l.text[2..]) || (rest == [] && '\n' !in l.text[2..]))
       case BlockComment =>
         |l.text| >= 2 && l.text[..2] == "/*"
         && (BlockEnd(l.text[2..]) || (rest == [] && forall k :: 0 <= k < |l.text| - 2 ==> !StarSlash(l.text[2..], k)))
       case Text => l.text[0] == '"' && (TextEnd(l.text[1..]) || (rest == [] && OpenText(l.text[1..])))
       case Regex =>
         pattern && l.text[0] == '/' && !OpensComment(l.text, rest)
         && (RegexEnd(l.text[1..], false) || (rest == [] && OpenRegex(l.text[1..], false)))
       case Word =>
         StartsWord(a, l.text[0]) && AllInWord(a, l.text[1..]) && (rest == [] || !InWord(a, rest[0]))
       case Symbol =>
         (|l.text| == 2 && l.text[0] == '=' && l.text[1] == '~')
         || (|l.text| == 1 && var c := l.text[0];
             !a.isSpace(c) && !StartsWord(a, c) && c != '"'
             && (c == '/' ==> !pattern && !OpensComment(l.text, rest))
             && (c == '=' ==> rest == [] || rest[0] != '~'))
  }

  /** Whether a slash after the lexeme opens a regular expression. */
  predicate NextPattern(a: Alphabet, l: Lexeme, rest: string, pattern: bool) {
    match l.kind
    case Space => pattern
    case LineComment => pattern
    case BlockComment => pattern
    case Text => false
    case Regex => false
    case Word => a.fold(l.text) == "matches"
    case Symbol => At(l.text, 0, '=') && (|l.text| == 2 || !At(rest, 0, '='))
  }

  function NextDepth(l: Lexeme, depth: nat): nat {
    if l.kind.Symbol? && At(l.text, 0, '{') then depth + 1
    else if l.kind.Symbol? && At(l.text, 0, '}') && depth > 0 then depth - 1
    else depth
  }

  /** `ls` cuts `s` into lexemes. */
  predicate Lexes(a: Alphabet, ls: seq<Lexeme>, s: string, pattern: bool) {
    if ls == [] then s == []
    else
      && ls[0].text <= s
      && var rest := s[|ls[0].text|..];
         ValidLexeme(a, ls[0], rest, pattern) && Lexes(a, ls[1..], rest, NextPattern(a, ls[0], rest, pattern))
  }

  predicate IsInclude(a: Alphabet, l: Lexeme) {
    l.kind.Word? && a.fold(l.text) == "include"
  }

  /** Some word folds to `include` at brace depth 0. */
  predicate HasInclude(a: Alphabet, ls: seq<Lexeme>, depth: nat) {
    ls != [] && ((IsInclude(a, ls[0]) && depth == 0) || HasInclude(a, ls[1..], NextDepth(ls[0], depth)))
  }

  /** A word begins with a letter or an underscore, goes on with letters, digits and underscores, and ends where the
      next character is none of these. */
  lemma WordsMean(a: Alphabet, l: Lexeme, rest: string, pattern: bool)
    requires l.kind.Word?
    ensures ValidLexeme(a, l, rest, pattern)
       <==> && |l.text| > 0 && (a.isAlpha(l.text[0]) || l.text[0] == '_')
            && (forall i :: 1 <= i < |l.text| ==> a.isAlnum(l.text[i]) || l.text[i] == '_')
            && (|rest| > 0 ==> !a.isAlnum(rest[0]) && rest[0] != '_')
  {
    if l.text != [] {
      assert forall i :: 1 <= i < |l.text| ==> l.text[1..][i - 1] == l.text[i];
      assert forall i :: 0 <= i < |l.text| - 1 ==> l.text[1..][i] == l.text[i + 1];
    }
  }

  /** No closing bracket between the two positions. */
  predicate Unclosed(s: string, j: nat, i: nat)
    requires i <= |s|
  {
    forall k :: j <= k < i ==> s[k] != ']'
  }

  /** A character class is open at position `i`: an opening bracket comes before it, and no closing one since. */
  predicate ClassOpen(s: string, i: nat, inClass: bool)
    requires i <= |s|
  {
    (exists j :: 0 <= j < i && s[j] == '[' && Unclosed(s, j + 1, i)) || (inClass && Unclosed(s, 0, i))
  }

  lemma UnclosedNext(s: string, j: nat, i: nat)
    requires 0 < j && 0 < i <= |s|
    ensures Unclosed(s, j, i) <==> Unclosed(s[1..], j - 1, i - 1)
  {
    var t := s[1..];
    if Unclosed(s, j, i) {
      assert forall k :: j - 1 <= k < i - 1 ==> t[k] == s[k + 1];
    }
    if Unclosed(t, j - 1, i - 1) {
      assert forall k :: j <= k < i ==> s[k] == t[k - 1];
    }
  }

  lemma ClassOpenNext(s: string, i: nat, inClass: bool)
    requires 0 < i <= |s|
    ensures ClassOpen(s, i, inClass) <==> ClassOpen(s[1..], i - 1, ClassAfter(s[0], inClass))
  {
    var t := s[1..];
    UnclosedNext(s, 1, i);
    if j :| 0 <= j < i - 1 && t[j] == '[' && Unclosed(t, j + 1, i - 1) {
      UnclosedNext(s, j + 2, i);
      assert s[j + 1] == '[' && Unclosed(s, j + 2, i);
    }
    if j :| 0 <= j < i && s[j] == '[' && Unclosed(s, j + 1, i) {
      UnclosedNext(s, j + 1, i);
      assert j > 0 ==> t[j - 1] == '[';
    }
  }

  /** The last character is the first slash outside a character class. */
  predicate EndsAtBareSlash(s: string, inClass: bool) {
    && |s| > 0 && s[|s| - 1] == '/' && !ClassOpen(s, |s| - 1, inClass)
    && forall i :: 0 <= i < |s| - 1 && s[i] == '/' ==> ClassOpen(s, i, inClass)
  }

  lemma EndsAtBareSlashNext(s: string, inClass: bool)
    requires |s| > 1
    ensures EndsAtBareSlash(s, inClass)
       <==> (s[0] == '/' ==> inClass) && EndsAtBareSlash(s[1..], ClassAfter(s[0], inClass))
  {
    var t, after := s[1..], ClassAfter(s[0], inClass);
    ClassOpenNext(s, |s| - 1, inClass);
    assert ClassOpen(s, 0, inClass) == inClass;
    if EndsAtBareSlash(s, inClass) {
      forall i | 0 <= i < |t| - 1 && t[i] == '/'
        ensures ClassOpen(t, i, after)
      {
        assert s[i + 1] == '/';
        ClassOpenNext(s, i + 1, inClass);
      }
    }
    if EndsAtBareSlash(t, after) {
      forall i | 0 < i < |s| - 1 && s[i] == '/'
        ensures ClassOpen(s, i, inClass)
      {
        assert t[i - 1] == '/';
        ClassOpenNext(s, i, inClass);
      }
    }
  }

  /** Without escapes, a regular expression ends at the first slash outside a character class. */
  lemma {:induction false} RegexEndMeans(s: string, inClass: bool)
    requires '\\' !in s
    ensures RegexEnd(s, inClass) <==> EndsAtBareSlash(s, inClass)
  {
    if |s| == 1 {
      assert ClassOpen(s, 0, inClass) == inClass;
      assert !RegexEnd(s[1..], ClassAfter(s[0], inClass));
    } else if |s| > 1 {
      RegexEndMeans(s[1..], ClassAfter(s[0], inClass));
      EndsAtBareSlashNext(s, inClass);
    }
  }

  /** An escaped character never ends a text or a regular expression, whatever it is. */
  lemma EscapesArePassed(c: char, s: string, inClass: bool)
    ensures TextEnd(['\\', c] + s) <==> TextEnd(s)
    ensures RegexEnd(['\\', c] + s, inClass) <==> RegexEnd(s, inClass)
  {
    assert (['\\', c] + s)[2..] == s;
  }

  /** Without escapes, a quoted text ends at its first quote. */
  lemma {:induction false} TextEndMeans(s: string)
    requires '\\' !in s
    ensures TextEnd(s) <==> |s| > 0 && s[|s| - 1] == '"' && '"' !in s[..|s| - 1]
  {
    if s != [] {
      TextEndMeans(s[1..]);
      if |s| > 1 {
        assert s[..|s| - 1] == [s[0]] + s[1..][..|s| - 2];
      }
    }
  }

  /** What a lexeme of the grammar does to the two flags: only an opening and a closing brace move the depth; a slash is
      a regular expression after `matches`, after `=~` and after an equals sign not followed by another, is none after
      any other word, symbol or literal, and is what it was after spaces and comments. */
  lemma FlagsMean(a: Alphabet, l: Lexeme, rest: string, pattern: bool, depth: nat)
    requires Sensible(a) && ValidLexeme(a, l, rest, pattern)
    ensures NextDepth(l, depth)
         == if l.text == "{" then depth + 1 else if l.text == "}" then (if depth == 0 then 0 else depth - 1) else depth
    ensures NextPattern(a, l, rest, pattern)
       <==> || (l.kind in {Space, LineComment, BlockComment} && pattern)
            || (l.kind.Word? && a.fold(l.text) == "matches")
            || l.text == "=~" || (l.text == "=" && (rest == [] || rest[0] != '='))
    ensures IsInclude(a, l) <==> l.kind.Word? && a.fold(l.text) == "include"
  {
    assert "{"[0] == '{' && "}"[0] == '}' && "="[0] == '=' && "=~"[0] == '=';
    assert forall t: string :: |t| == 1 ==> t == [t[0]];
    assert forall t: string :: |t| == 2 ==> t == [t[0], t[1]];
  }

  // ---- every text has exactly one lexing -----------------------------------------------------

  function LineLength(s: string): (n: nat)
    ensures n <= |s|
    ensures LineEnd(s[..n]) || (n == |s| && '\n' !in s)
  {
    if s == [] then 0
    else if s[0] == '\n' then 1
    else
      var n := LineLength(s[1..]);
      assert s[..n + 1] == [s[0]] + s[1..][..n] && s[..n + 1][..n] == if n > 0 then [s[0]] + s[1..][..n - 1] else [];
      n + 1
  }

  function BlockLength(s: string): (n: nat)
    ensures n <= |s|
    ensures BlockEnd(s[..n]) || (n == |s| && forall k :: 0 <= k < |s| ==> !StarSlash(s, k))
  {
    if |s| < 2 then |s|
    else if StarSlash(s, 0) then 2
    else
      var n := BlockLength(s[1..]);
      var t := s[..n + 1];
      assert forall k :: 0 < k < |s| ==> StarSlash(s, k) == StarSlash(s[1..], k - 1);
      assert t[1..] == s[1..][..n];
      assert forall k :: 0 < k < |t| ==> StarSlash(t, k) == StarSlash(t[1..], k - 1);
      n + 1
  }

  function TextLength(s: string): (n: nat)
    ensures n <= |s|
    ensures TextEnd(s[..n]) || (n == |s| && OpenText(s))
  {
    if s == [] then 0
    else if s[0] == '\\' then
      if |s| < 2 then |s|
      else
        var n := TextLength(s[2..]);
        assert s[..n + 2][2..] == s[2..][..n];
        n + 2
    else if s[0] == '"' then 1
    else
      var n := TextLength(s[1..]);
      assert s[..n + 1][1..] == s[1..][..n];
      n + 1
  }

  function RegexLength(s: string, inClass: bool): (n: nat)
    ensures n <= |s|
    ensures RegexEnd(s[..n], inClass) || (n == |s| && OpenRegex(s, inClass))
  {
    if s == [] then 0
    else if s[0] == '\\' then
      if |s| < 2 then |s|
      else
        var n := RegexLength(s[2..], inClass);
        assert s[..n + 2][2..] == s[2..][..n];
        n + 2
    else if s[0] == '/' && !inClass then 1
    else
      var n := RegexLength(s[1..], ClassAfter(s[0], inClass));
      assert s[..n + 1][1..] == s[1..][..n];
      n + 1
  }

  function WordLength(a: Alphabet, s: string): (n: nat)
    ensures n <= |s| && AllInWord(a, s[..n]) && (n == |s| || !InWord(a, s[n]))
  {
    if s == [] || !InWord(a, s[0]) then 0
    else
      var n := WordLength(a, s[1..]);
      assert s[..n + 1] == [s[0]] + s[1..][..n];
      n + 1
  }

  /** The kind and length of the first lexeme. */
  function First(a: Alphabet, s: string, pattern: bool): (r: (Kind, nat))
    requires s != []
    ensures 0 < r.1 <= |s|
  {
    var c := s[0];
    if a.isSpace(c) then (Space, 1)
    else if c == '/' && At(s, 1, '/') then (LineComment, 2 + LineLength(s[2..]))
    else if c == '/' && At(s, 1, '*') then (BlockComment, 2 + BlockLength(s[2..]))
    else if c == '"' then (Text, 1 + TextLength(s[1..]))
    else if c == '/' && pattern then (Regex, 1 + RegexLength(s[1..], false))
    else if StartsWord(a, c) then (Word, 1 + WordLength(a, s[1..]))
    else if c == '=' && At(s, 1, '~') then (Symbol, 2)
    else (Symbol, 1)
  }

  function Next(a: Alphabet, s: string, pattern: bool): (l: Lexeme)
    requires s != []
    ensures l.text != [] && l.text <= s
  {
    var (kind, n) := First(a, s, pattern);
    Lexeme(kind, s[..n])
  }

  function Lex(a: Alphabet, s: string, pattern: bool): seq<Lexeme>
    decreases |s|
  {
    if s == [] then []
    else
      var l := Next(a, s, pattern);
      var rest := s[|l.text|..];
      [l] + Lex(a, rest, NextPattern(a, l, rest, pattern))
  }

  lemma {:induction false} LineEndIsLength(b: string, rest: string)
    requires LineEnd(b)
    ensures LineLength(b + rest) == |b|
  {
    assert (b + rest)[1..] == b[1..] + rest;
    if |b| > 1 {
      assert b[0] == b[..|b| - 1][0];
      assert b[1..][..|b| - 2] == b[..|b| - 1][1..];
      LineEndIsLength(b[1..], rest);
    }
  }

  lemma {:induction false} BlockEndIsLength(b: string, rest: string)
    requires BlockEnd(b)
    ensures BlockLength(b + rest) == |b|
  {
    assert (b + rest)[1..] == b[1..] + rest;
    if |b| > 2 {
      assert !StarSlash(b, 0);
      assert forall k :: 0 <= k < |b| - 1 ==> StarSlash(b[1..], k) == StarSlash(b, k + 1);
      BlockEndIsLength(b[1..], rest);
    }
  }

  lemma {:induction false} OpenBlockIsLength(b: string)
    requires forall k :: 0 <= k < |b| ==> !StarSlash(b, k)
    ensures BlockLength(b) == |b|
  {
    if |b| >= 2 {
      assert !StarSlash(b, 0);
      assert forall k :: 0 <= k < |b| - 1 ==> StarSlash(b[1..], k) == StarSlash(b, k + 1);
      OpenBlockIsLength(b[1..]);
    }
  }

  lemma {:induction false} TextEndIsLength(b: string, rest: string)
    requires TextEnd(b) || (rest == [] && OpenText(b))
    ensures TextLength(b + rest) == |b|
  {
    if b != [] {
      if b[0] == '\\' && |b| >= 2 {
        assert (b + rest)[2..] == b[2..] + rest;
        TextEndIsLength(b[2..], rest);
      } else if b[0] != '"' && b[0] != '\\' {
        assert (b + rest)[1..] == b[1..] + rest;
        TextEndIsLength(b[1..], rest);
      }
    }
  }

  lemma {:induction false} RegexEndIsLength(b: string, rest: string, inClass: bool)
    requires RegexEnd(b, inClass) || (rest == [] && OpenRegex(b, inClass))
    ensures RegexLength(b + rest, inClass) == |b|
  {
    if b != [] {
      if b[0] == '\\' {
        if |b| >= 2 {
          assert (b + rest)[2..] == b[2..] + rest;
          RegexEndIsLength(b[2..], rest, inClass);
        }
      } else if !(b[0] == '/' && !inClass) {
        assert (b + rest)[1..] == b[1..] + rest;
        RegexEndIsLength(b[1..], rest, ClassAfter(b[0], inClass));
      }
    }
  }

  lemma {:induction false} WordIsLength(a: Alphabet, b: string, rest: string)
    requires AllInWord(a, b) && (rest == [] || !InWord(a, rest[0]))
    ensures WordLength(a, b + rest) == |b|
  {
    if b == [] {
      assert b + rest == rest;
    } else {
      assert (b + rest)[1..] == b[1..] + rest;
      WordIsLength(a, b[1..], rest);
    }
  }

  lemma Cut(s: string, from: nat, n: nat)
    requires from <= n <= |s|
    ensures s[..n][from..] == s[from..][..n - from]
  {
  }

  lemma NextCommentIsValid(a: Alphabet, s: string, pattern: bool)
    requires s != [] && First(a, s, pattern).0 in {LineComment, BlockComment}
    ensures ValidLexeme(a, Next(a, s, pattern), s[|Next(a, s, pattern).text|..], pattern)
  {
    var (kind, n) := First(a, s, pattern);
    assert n >= 2;
    Cut(s, 2, n);
    if n == |s| {
      assert s[2..][..n - 2] == s[2..];
    }
  }

  lemma NextTextIsValid(a: Alphabet, s: string, pattern: bool)
    requires s != [] && First(a, s, pattern).0 == Text
    ensures ValidLexeme(a, Next(a, s, pattern), s[|Next(a, s, pattern).text|..], pattern)
  {
    var n := First(a, s, pattern).1;
    Cut(s, 1, n);
    if n == |s| {
      assert s[1..][..n - 1] == s[1..];
    }
  }

  lemma NextRegexIsValid(a: Alphabet, s: string, pattern: bool)
    requires s != [] && First(a, s, pattern).0 == Regex
    ensures ValidLexeme(a, Next(a, s, pattern), s[|Next(a, s, pattern).text|..], pattern)
  {
    var n := First(a, s, pattern).1;
    Cut(s, 1, n);
    if n == |s| {
      assert s[1..][..n - 1] == s[1..];
    }
  }

  lemma NextWordIsValid(a: Alphabet, s: string, pattern: bool)
    requires s != [] && First(a, s, pattern).0 == Word
    ensures ValidLexeme(a, Next(a, s, pattern), s[|Next(a, s, pattern).text|..], pattern)
  {
    var n := First(a, s, pattern).1;
    Cut(s, 1, n);
    if n == |s| {
      assert s[1..][..n - 1] == s[1..];
    }
  }

  lemma NextIsValid(a: Alphabet, s: string, pattern: bool)
    requires Sensible(a) && s != []
    ensures ValidLexeme(a, Next(a, s, pattern), s[|Next(a, s, pattern).text|..], pattern)
  {
    var kind := First(a, s, pattern).0;
    if kind in {LineComment, BlockComment} {
      NextCommentIsValid(a, s, pattern);
    } else if kind == Text {
      NextTextIsValid(a, s, pattern);
    } else if kind == Regex {
      NextRegexIsValid(a, s, pattern);
    } else if kind == Word {
      NextWordIsValid(a, s, pattern);
    }
  }

  lemma ValidLineIsNext(a: Alphabet, l: Lexeme, rest: string, pattern: bool)
    requires Sensible(a) && ValidLexeme(a, l, rest, pattern) && l.kind.LineComment?
    ensures First(a, l.text + rest, pattern) == (l.kind, |l.text|)
  {
    var s, body := l.text + rest, l.text[2..];
    assert s[0] == l.text[..2][0] && s[1] == l.text[..2][1] && s[2..] == body + rest;
    if LineEnd(body) {
      LineEndIsLength(body, rest);
    } else {
      assert body + rest == body;
    }
  }

  lemma ValidBlockIsNext(a: Alphabet, l: Lexeme, rest: string, pattern: bool)
    requires Sensible(a) && ValidLexeme(a, l, rest, pattern) && l.kind.BlockComment?
    ensures First(a, l.text + rest, pattern) == (l.kind, |l.text|)
  {
    var s, body := l.text + rest, l.text[2..];
    assert s[0] == l.text[..2][0] && s[1] == l.text[..2][1] && s[2..] == body + rest;
    if BlockEnd(body) {
      BlockEndIsLength(body, rest);
    } else {
      OpenBlockIsLength(body);
      assert body + rest == body;
    }
  }

  lemma ValidTextIsNext(a: Alphabet, l: Lexeme, rest: string, pattern: bool)
    requires Sensible(a) && ValidLexeme(a, l, rest, pattern) && l.kind.Text?
    ensures First(a, l.text + rest, pattern) == (l.kind, |l.text|)
  {
    assert (l.text + rest)[1..] == l.text[1..] + rest;
    TextEndIsLength(l.text[1..], rest);
  }

  lemma ValidRegexIsNext(a: Alphabet, l: Lexeme, rest: string, pattern: bool)
    requires Sensible(a) && ValidLexeme(a, l, rest, pattern) && l.kind.Regex?
    ensures First(a, l.text + rest, pattern) == (l.kind, |l.text|)
  {
    assert (l.text + rest)[1..] == l.text[1..] + rest;
    RegexEndIsLength(l.text[1..], rest, false);
  }

  lemma ValidWordIsNext(a: Alphabet, l: Lexeme, rest: string, pattern: bool)
    requires Sensible(a) && ValidLexeme(a, l, rest, pattern) && l.kind.Word?
    ensures First(a, l.text + rest, pattern) == (l.kind, |l.text|)
  {
    assert (l.text + rest)[1..] == l.text[1..] + rest;
    WordIsLength(a, l.text[1..], rest);
  }

  /** A valid lexeme has the kind and length of the first one. */
  lemma ValidIsFirst(a: Alphabet, l: Lexeme, rest: string, pattern: bool)
    requires Sensible(a) && ValidLexeme(a, l, rest, pattern)
    ensures First(a, l.text + rest, pattern) == (l.kind, |l.text|)
  {
    match l.kind
    case LineComment => ValidLineIsNext(a, l, rest, pattern);
    case BlockComment => ValidBlockIsNext(a, l, rest, pattern);
    case Text => ValidTextIsNext(a, l, rest, pattern);
    case Regex => ValidRegexIsNext(a, l, rest, pattern);
    case Word => ValidWordIsNext(a, l, rest, pattern);
    case _ =>
  }

  /** A valid lexeme is the one the text starts with. */
  lemma ValidIsNext(a: Alphabet, l: Lexeme, rest: string, pattern: bool)
    requires Sensible(a) && ValidLexeme(a, l, rest, pattern)
    ensures Next(a, l.text + rest, pattern) == l
  {
    ValidIsFirst(a, l, rest, pattern);
    assert (l.text + rest)[..|l.text|] == l.text;
  }

  lemma LexingStartsWithNext(a: Alphabet, s: string, pattern: bool, ls: seq<Lexeme>)
    requires Sensible(a) && s != [] && Lexes(a, ls, s, pattern)
    ensures ls != [] && ls[0] == Next(a, s, pattern)
  {
    var rest := s[|ls[0].text|..];
    assert s == ls[0].text + rest;
    ValidIsNext(a, ls[0], rest, pattern);
  }

  /** Every text has exactly one lexing. */
  lemma {:induction false} LexIsTheLexing(a: Alphabet, s: string, pattern: bool, ls: seq<Lexeme>)
    requires Sensible(a)
    ensures Lexes(a, ls, s, pattern) <==> ls == Lex(a, s, pattern)
    decreases |s|, |ls|
  {
    if s == [] {
      if ls != [] && ls[0].text <= s {
        assert ls[0].text == [];
      }
    } else if ls != [] {
      var l := Next(a, s, pattern);
      var rest := s[|l.text|..];
      NextIsValid(a, s, pattern);
      LexIsTheLexing(a, rest, NextPattern(a, l, rest, pattern), ls[1..]);
      if Lexes(a, ls, s, pattern) {
        LexingStartsWithNext(a, s, pattern, ls);
      }
      assert ls == [ls[0]] + ls[1..];
    }
  }

  // ---- the answer, and what cannot change it -------------------------------------------------

  predicate Answer(a: Alphabet, s: string, pattern: bool, depth: nat) {
    HasInclude(a, Lex(a, s, pattern), depth)
  }

  /** Closed comments, texts and regular expressions: lexemes that do not just run to the end. */
  predicate ClosedLiteral(l: Lexeme) {
    match l.kind
    case LineComment => |l.text| >= 2 && l.text[..2] == "//" && LineEnd(l.text[2..])
    case BlockComment => |l.text| >= 2 && l.text[..2] == "/*" && BlockEnd(l.text[2..])
    case Text => l.text != [] && l.text[0] == '"' && TextEnd(l.text[1..])
    case Regex => |l.text| >= 2 && l.text[0] == '/' && l.text[1] !in "/*" && RegexEnd(l.text[1..], false)
    case _ => false
  }

  function Joined(ls: seq<Lexeme>): string {
    if ls == [] then [] else ls[0].text + Joined(ls[1..])
  }

  lemma {:induction false} LexesJoin(a: Alphabet, ls: seq<Lexeme>, s: string, pattern: bool)
    requires Lexes(a, ls, s, pattern)
    ensures Joined(ls) == s
  {
    if ls != [] {
      var rest := s[|ls[0].text|..];
      LexesJoin(a, ls[1..], rest, NextPattern(a, ls[0], rest, pattern));
    }
  }

  /** What a lexeme can see of the text after it. */
  predicate LooksTheSame(rest: string, other: string) {
    if rest == [] then other == [] else other != [] && other[0] == rest[0]
  }

  lemma SameView(a: Alphabet, l: Lexeme, rest: string, other: string, pattern: bool)
    requires ValidLexeme(a, l, rest, pattern) && LooksTheSame(rest, other)
    ensures ValidLexeme(a, l, other, pattern) && NextPattern(a, l, other, pattern) == NextPattern(a, l, rest, pattern)
  {
  }

  lemma SameRole(a: Alphabet, l: Lexeme, other: Lexeme, rest: string, pattern: bool)
    requires ValidLexeme(a, l, rest, pattern) && ClosedLiteral(l) && ClosedLiteral(other) && other.kind == l.kind
    ensures ValidLexeme(a, other, rest, pattern)
            && NextPattern(a, other, rest, pattern) == NextPattern(a, l, rest, pattern)
    ensures other.text[0] == l.text[0]
  {
    assert l.kind in {LineComment, BlockComment} ==> l.text[0] == l.text[..2][0] && other.text[0] == other.text[..2][0];
  }

  lemma Prepend(a: Alphabet, l: Lexeme, tail: seq<Lexeme>, rest: string, pattern: bool)
    requires ValidLexeme(a, l, rest, pattern) && Lexes(a, tail, rest, NextPattern(a, l, rest, pattern))
    ensures Lexes(a, [l] + tail, l.text + rest, pattern)
  {
    assert (l.text + rest)[|l.text|..] == rest;
    assert ([l] + tail)[1..] == tail;
  }

  lemma {:induction false} EditedLexes(a: Alphabet, ls: seq<Lexeme>, s: string, pattern: bool, i: nat, l: Lexeme)
    requires Lexes(a, ls, s, pattern) && i < |ls| && ClosedLiteral(ls[i]) && ClosedLiteral(l) && l.kind == ls[i].kind
    ensures Lexes(a, ls[i := l], Joined(ls[i := l]), pattern) && LooksTheSame(s, Joined(ls[i := l]))
  {
    var rest := s[|ls[0].text|..];
    var later := NextPattern(a, ls[0], rest, pattern);
    if i == 0 {
      assert ls[i := l] == [l] + ls[1..];
      LexesJoin(a, ls[1..], rest, later);
      SameRole(a, ls[0], l, rest, pattern);
      Prepend(a, l, ls[1..], rest, pattern);
    } else {
      var tail := ls[1..][i - 1 := l];
      assert ls[i := l] == [ls[0]] + tail;
      EditedLexes(a, ls[1..], rest, later, i - 1, l);
      SameView(a, ls[0], rest, Joined(tail), pattern);
      Prepend(a, ls[0], tail, Joined(tail), pattern);
    }
  }

  lemma {:induction false} EditedIncludes(a: Alphabet, ls: seq<Lexeme>, depth: nat, i: nat, l: Lexeme)
    requires i < |ls| && ClosedLiteral(ls[i]) && ClosedLiteral(l) && l.kind == ls[i].kind
    ensures HasInclude(a, ls[i := l], depth) == HasInclude(a, ls, depth)
  {
    if i == 0 {
      assert ls[i := l][1..] == ls[1..];
    } else {
      assert ls[i := l][1..] == ls[1..][i - 1 := l];
      EditedIncludes(a, ls[1..], NextDepth(ls[0], depth), i - 1, l);
    }
  }

  /** Rewriting the inside of a closed comment, text or regular expression, in any way that still closes
      it only at its end, never changes the answer. */
  lemma EditingLiteralsIsInvisible(a: Alphabet, s: string, i: nat, l: Lexeme)
    requires Sensible(a) && i < |Lex(a, s, false)|
    requires ClosedLiteral(Lex(a, s, false)[i]) && ClosedLiteral(l) && l.kind == Lex(a, s, false)[i].kind
    ensures Answer(a, Joined(Lex(a, s, false)[i := l]), false, 0) == Answer(a, s, false, 0)
  {
    var ls := Lex(a, s, false);
    LexIsTheLexing(a, s, false, ls);
    EditedLexes(a, ls, s, false, i, l);
    LexIsTheLexing(a, Joined(ls[i := l]), false, ls[i := l]);
    EditedIncludes(a, ls, 0, i, l);
  }

  /** The answer says that some word folds to `include` where every brace before it has been closed. */
  lemma {:induction false} OnlyWordsAndBracesCount(a: Alphabet, ls: seq<Lexeme>, depth: nat)
    ensures HasInclude(a, ls, depth) <==>
              exists i :: 0 <= i < |ls| && IsInclude(a, ls[i]) && DepthAfter(ls[..i], depth) == 0
  {
    if ls != [] {
      OnlyWordsAndBracesCount(a, ls[1..], NextDepth(ls[0], depth));
      forall i | 0 < i < |ls|
        ensures DepthAfter(ls[..i], depth) == DepthAfter(ls[1..][..i - 1], NextDepth(ls[0], depth))
      {
        assert ls[..i][1..] == ls[1..][..i - 1];
      }
      if HasInclude(a, ls[1..], NextDepth(ls[0], depth)) {
        var j :| 0 <= j < |ls| - 1 && IsInclude(a, ls[1..][j])
          && DepthAfter(ls[1..][..j], NextDepth(ls[0], depth)) == 0;
        assert IsInclude(a, ls[j + 1]) && DepthAfter(ls[..j + 1], depth) == 0;
      }
      if exists i :: 0 <= i < |ls| && IsInclude(a, ls[i]) && DepthAfter(ls[..i], depth) == 0 {
        var i :| 0 <= i < |ls| && IsInclude(a, ls[i]) && DepthAfter(ls[..i], depth) == 0;
        if i > 0 {
          assert ls[1..][i - 1] == ls[i];
        }
      }
    }
  }

  /** The brace depth after some lexemes; a closing brace too many is ignored. */
  function DepthAfter(ls: seq<Lexeme>, depth: nat): nat {
    if ls == [] then depth else DepthAfter(ls[1..], NextDepth(ls[0], depth))
  }

  // ---- the scanner -------------------------------------------------------------------------

  function Suffix(s: string, i: nat): string {
    if i >= |s| then [] else s[i..]
  }

  method SkipLine(s: string, start: nat) returns (index: nat)
    requires start <= |s|
    ensures index == start + LineLength(s[start..])
  {
    index := start;
    while index < |s|
      invariant start <= index <= |s| && LineLength(s[start..]) == index - start + LineLength(s[index..])
    {
      assert s[index..][1..] == s[index + 1..];
      index := index + 1;
      if s[index - 1] == '\n' {
        return;
      }
    }
  }

  method SkipBlock(s: string, start: nat) returns (index: nat)
    requires start <= |s|
    ensures index == start + BlockLength(s[start..])
  {
    index := start;
    while index + 1 < |s|
      invariant start <= index <= |s| && BlockLength(s[start..]) == index - start + BlockLength(s[index..])
    {
      if s[index] == '*' && s[index + 1] == '/' {
        return index + 2;
      }
      assert s[index..][1..] == s[index + 1..];
      index := index + 1;
    }
    index := |s|;
  }

  /** Marks the texts whose length is looked into. */
  predicate Measured(s: string) {
    true
  }

  ghost predicate MeasuresText(length: string -> nat) {
    forall s {:trigger Measured(s)} :: Measured(s) ==> length(s) == TextLength(s)
  }

  /** What one pass over a quoted text takes off its length. */
  lemma TextNext(length: string -> nat, s: string, index: nat)
    requires MeasuresText(length) && index < |s|
    ensures length(s[index..])
         == if s[index] == '"' then 1
            else if s[index] != '\\' then 1 + length(s[index + 1..])
            else if index + 2 <= |s| then 2 + length(s[index + 2..])
            else 1
  {
    assert Measured(s[index..]) && Measured(s[index + 1..]);
    assert s[index..][1..] == s[index + 1..];
    if index + 2 <= |s| {
      assert Measured(s[index + 2..]);
      assert s[index..][2..] == s[index + 2..];
    }
  }

  lemma NothingMeasured(length: string -> nat)
    requires MeasuresText(length)
    ensures length([]) == 0
  {
    assert Measured([]);
  }

  /** The loop over a quoted text; a trailing backslash takes the index one past the end. */
  method SkipTextBy(s: string, start: nat, ghost length: string -> nat) returns (index: nat)
    requires start <= |s| && MeasuresText(length)
    ensures start <= index
    ensures if index <= |s| then index == start + length(s[start..]) else start + length(s[start..]) == |s|
  {
    NothingMeasured(length);
    assert s[|s|..] == [];
    index := start;
    while index < |s|
      invariant start <= index <= |s| + 1
      invariant length(s[start..]) == if index <= |s| then index - start + length(s[index..]) else |s| - start
    {
      TextNext(length, s, index);
      if s[index] == '\\' {
        index := index + 2;
      } else if s[index] == '"' {
        index := index + 1;
        return;
      } else {
        index := index + 1;
      }
    }
  }

  method SkipText(s: string, start: nat) returns (index: nat)
    requires start <= |s|
    ensures Suffix(s, index) == s[start + TextLength(s[start..])..]
    ensures index >= start
  {
    ghost var length := (t: string) => TextLength(t);
    index := SkipTextBy(s, start, length);
  }

  ghost predicate MeasuresRegex(length: (string, bool) -> nat) {
    forall s, inClass {:trigger Measured(s), length(s, inClass)} :: Measured(s) ==>
        length(s, inClass) == RegexLength(s, inClass)
  }

  /** What one pass over a regular expression takes off its length. */
  lemma RegexNext(length: (string, bool) -> nat, s: string, index: nat, inClass: bool)
    requires MeasuresRegex(length) && index < |s|
    ensures length(s[index..], inClass)
         == if s[index] == '/' && !inClass then 1
            else if s[index] != '\\' then 1 + length(s[index + 1..], ClassAfter(s[index], inClass))
            else if index + 2 <= |s| then 2 + length(s[index + 2..], inClass)
            else 1
  {
    assert Measured(s[index..]) && Measured(s[index + 1..]);
    assert s[index..][1..] == s[index + 1..];
    if index + 2 <= |s| {
      assert Measured(s[index + 2..]);
      assert s[index..][2..] == s[index + 2..];
    }
  }

  lemma NoRegexMeasured(length: (string, bool) -> nat, inClass: bool)
    requires MeasuresRegex(length)
    ensures length([], inClass) == 0
  {
    assert Measured([]);
  }

  /** The loop over a regular expression with its character classes. */
  method SkipRegexBy(s: string, start: nat, ghost length: (string, bool) -> nat) returns (index: nat)
    requires start <= |s| && MeasuresRegex(length)
    ensures start <= index
    ensures if index <= |s| then index == start + length(s[start..], false)
            else start + length(s[start..], false) == |s|
  {
    index := start;
    var inClass := false;
    while index < |s|
      invariant start <= index <= |s| + 1
      invariant length(s[start..], false)
             == if index <= |s| then index - start + length(s[index..], inClass) else |s| - start
    {
      RegexNext(length, s, index, inClass);
      if s[index] == '\\' {
        index := index + 2;
        continue;
      }
      if s[index] == '[' {
        inClass := true;
      } else if s[index] == ']' {
        inClass := false;
      } else if s[index] == '/' && !inClass {
        index := index + 1;
        return;
      }
      index := index + 1;
    }
    NoRegexMeasured(length, inClass);
    assert s[|s|..] == [];
  }

  method SkipRegex(s: string, start: nat) returns (index: nat)
    requires start <= |s|
    ensures Suffix(s, index) == s[start + RegexLength(s[start..], false)..]
    ensures index >= start
  {
    ghost var length := (t: string, inClass: bool) => RegexLength(t, inClass);
    index := SkipRegexBy(s, start, length);
  }

  method SkipWord(a: Alphabet, s: string, start: nat) returns (end: nat)
    requires start < |s|
    ensures end == start + 1 + WordLength(a, s[start + 1..])
  {
    end := start + 1;
    while end < |s| && InWord(a, s[end])
      invariant start + 1 <= end <= |s| && WordLength(a, s[start + 1..]) == end - start - 1 + WordLength(a, s[end..])
    {
      assert s[end..][1..] == s[end + 1..];
      end := end + 1;
    }
  }

  /** What is left of a scan after its first lexeme: the rest of the text, and the two flags. */
  datatype Scan = Scan(text: string, pattern: bool, depth: nat)

  function After(a: Alphabet, scan: Scan): Scan
    requires scan.text != []
  {
    var l := Next(a, scan.text, scan.pattern);
    var rest := scan.text[|l.text|..];
    Scan(rest, NextPattern(a, l, rest, scan.pattern), NextDepth(l, scan.depth))
  }

  predicate AnswerOf(a: Alphabet, scan: Scan) {
    Answer(a, scan.text, scan.pattern, scan.depth)
  }

  /** The first lexeme is an include where no brace is open. */
  predicate Found(a: Alphabet, scan: Scan)
    requires scan.text != []
  {
    IsInclude(a, Next(a, scan.text, scan.pattern)) && scan.depth == 0
  }

  /** The flags after a symbol of length `n` at the start of `s`. */
  predicate SymbolFlags(s: string, n: nat, depth: nat, patternAfter: bool, depthAfter: nat)
    requires s != []
  {
    && patternAfter == (s[0] == '=' && (n == 2 || !At(s, 1, '=')))
    && depthAfter == (if s[0] == '{' then depth + 1 else if s[0] == '}' && depth > 0 then depth - 1 else depth)
  }

  /** The part of the loop body that handles punctuation. */
  method StepSymbol(a: Alphabet, source: string, start: nat, ghost patternBefore: bool, depthBefore: nat)
    returns (index: nat, pattern: bool, depth: nat)
    requires start < |source| && First(a, source[start..], patternBefore).0.Symbol?
    ensures index == start + First(a, source[start..], patternBefore).1
    ensures SymbolFlags(source[start..], index - start, depthBefore, pattern, depth)
  {
    index, depth := start, depthBefore;
    var c := source[index];
    var following := if index + 1 < |source| then source[index + 1..index + 2] else "";
    if c == '{' {
      depth := depth + 1;
      pattern := false;
    } else if c == '}' {
      depth := if depth > 0 then depth - 1 else 0;
      pattern := false;
    } else if c == '=' {
      if following == "~" {
        pattern := true;
        index := index + 2;
        return;
      }
      pattern := following != "=";
    } else {
      pattern := false;
    }
    index := index + 1;
  }

  /** The first lexeme at a position, by the characters there. */
  lemma FirstAt(a: Alphabet, source: string, start: nat, pattern: bool)
    requires start < |source|
    ensures var c := source[start];
            First(a, source[start..], pattern)
            == (if a.isSpace(c) then (Space, 1)
                else if c == '/' && At(source, start + 1, '/') then (LineComment, 2 + LineLength(source[start + 2..]))
                else if c == '/' && At(source, start + 1, '*') then (BlockComment, 2 + BlockLength(source[start + 2..]))
                else if c == '"' then (Text, 1 + TextLength(source[start + 1..]))
                else if c == '/' && pattern then (Regex, 1 + RegexLength(source[start + 1..], false))
                else if StartsWord(a, c) then (Word, 1 + WordLength(a, source[start + 1..]))
                else if c == '=' && At(source, start + 1, '~') then (Symbol, 2)
                else (Symbol, 1))
  {
    assert source[start..][1..] == source[start + 1..];
    assert start + 2 <= |source| ==> source[start..][2..] == source[start + 2..];
  }

  /** The first lexeme is a word or a symbol where nothing else begins. */
  lemma FirstIsToken(a: Alphabet, source: string, start: nat, pattern: bool)
    requires start < |source| && !a.isSpace(source[start]) && source[start] != '"'
    requires source[start] == '/' ==> !pattern && !At(source, start + 1, '/') && !At(source, start + 1, '*')
    ensures First(a, source[start..], pattern).0 == (if StartsWord(a, source[start]) then Word else Symbol)
  {
    FirstAt(a, source, start, pattern);
  }

  /** A skipped lexeme of the kind has been passed. */
  predicate Passed(a: Alphabet, source: string, start: nat, pattern: bool, kind: Kind, index: nat)
    requires start < |source|
  {
    var first := First(a, source[start..], pattern);
    first.0 == kind && start < index && Suffix(source, index) == source[start + first.1..]
  }

  method PassSlash(a: Alphabet, source: string, start: nat, pattern: bool) returns (kind: Kind, index: nat)
    requires start < |source| && source[start] == '/' && !a.isSpace('/')
    requires pattern || At(source, start + 1, '/') || At(source, start + 1, '*')
    ensures kind in {LineComment, BlockComment, Regex} && Passed(a, source, start, pattern, kind, index)
  {
    FirstAt(a, source, start, pattern);
    if At(source, start + 1, '/') {
      index := SkipLine(source, start + 2);
      return LineComment, index;
    }
    if At(source, start + 1, '*') {
      index := SkipBlock(source, start + 2);
      return BlockComment, index;
    }
    index := SkipRegex(source, start + 1);
    return Regex, index;
  }

  method PassQuote(a: Alphabet, source: string, start: nat, ghost pattern: bool) returns (index: nat)
    requires start < |source| && source[start] == '"' && !a.isSpace('"')
    ensures Passed(a, source, start, pattern, Text, index)
  {
    FirstAt(a, source, start, pattern);
    index := SkipText(source, start + 1);
  }

  lemma SpaceIsPassed(a: Alphabet, source: string, start: nat, pattern: bool)
    requires start < |source| && a.isSpace(source[start])
    ensures Passed(a, source, start, pattern, Space, start + 1)
  {
    FirstAt(a, source, start, pattern);
  }

  /** The part of the loop body that skips a space, a comment or a literal; a literal resets the flag. */
  method SkipLexeme(a: Alphabet, source: string, start: nat, patternBefore: bool)
    returns (skipped: bool, index: nat, pattern: bool)
    requires start < |source|
    ensures var (kind, n) := First(a, source[start..], patternBefore);
            if kind in {Word, Symbol} then !skipped && kind == (if StartsWord(a, source[start]) then Word else Symbol)
            else
              && skipped && start < index && Suffix(source, index) == source[start + n..]
              && pattern == (if kind in {Text, Regex} then false else patternBefore)
  {
    var c := source[start];
    if a.isSpace(c) {
      SpaceIsPassed(a, source, start, patternBefore);
      return true, start + 1, patternBefore;
    }
    if c == '/' && (patternBefore || At(source, start + 1, '/') || At(source, start + 1, '*')) {
      var kind;
      kind, index := PassSlash(a, source, start, patternBefore);
      return true, index, kind != Regex && patternBefore;
    }
    if c == '"' {
      index := PassQuote(a, source, start, patternBefore);
      return true, index, false;
    }
    FirstIsToken(a, source, start, patternBefore);
    return false, start, patternBefore;
  }

  lemma SkippedIsAfter(a: Alphabet, source: string, start: nat, pattern: bool, depth: nat, index: nat, after: bool)
    requires start < |source|
    requires var (kind, n) := First(a, source[start..], pattern);
             && kind !in {Word, Symbol} && Suffix(source, index) == source[start + n..]
             && after == (if kind in {Text, Regex} then false else pattern)
    ensures var scan := Scan(source[start..], pattern, depth);
            Scan(Suffix(source, index), after, depth) == After(a, scan) && !Found(a, scan)
  {
  }

  lemma WordIsAfter(a: Alphabet, scan: Scan, n: nat)
    requires scan.text != [] && First(a, scan.text, scan.pattern) == (Word, n)
    ensures n <= |scan.text| && Found(a, scan) == (scan.depth == 0 && a.fold(scan.text[..n]) == "include")
    ensures After(a, scan) == Scan(scan.text[n..], a.fold(scan.text[..n]) == "matches", scan.depth)
  {
  }

  lemma TokenIsAfter(a: Alphabet, source: string, start: nat, pattern: bool, depth: nat, index: nat)
    requires start < index <= |source| && First(a, source[start..], pattern) == (Word, index - start)
    ensures var scan := Scan(source[start..], pattern, depth); var token := a.fold(source[start..index]);
            && Found(a, scan) == (depth == 0 && token == "include")
            && Scan(Suffix(source, index), token == "matches", depth) == After(a, scan)
  {
    WordIsAfter(a, Scan(source[start..], pattern, depth), index - start);
    assert source[start..][..index - start] == source[start..index];
    assert source[start..][index - start..] == Suffix(source, index);
  }

  /** The word at the scan position, folded. */
  method NextToken(a: Alphabet, source: string, start: nat, ghost pattern: bool) returns (end: nat, token: string)
    requires Sensible(a) && start < |source| && First(a, source[start..], pattern).0.Word?
    ensures start < end <= |source| && First(a, source[start..], pattern) == (Word, end - start)
    ensures token == a.fold(source[start..end])
  {
    assert source[start..][1..] == source[start + 1..];
    end := SkipWord(a, source, start);
    token := a.fold(source[start..end]);
  }

  /** One iteration of the scanner's loop. */
  method Step(a: Alphabet, source: string, start: nat, patternBefore: bool, depthBefore: nat)
    returns (found: bool, index: nat, pattern: bool, depth: nat)
    requires Sensible(a) && start < |source|
    ensures start < index
    ensures found == Found(a, Scan(source[start..], patternBefore, depthBefore))
    ensures !found ==>
              Scan(Suffix(source, index), pattern, depth) == After(a, Scan(source[start..], patternBefore, depthBefore))
  {
    var skipped: bool;
    skipped, index, pattern := SkipLexeme(a, source, start, patternBefore);
    depth := depthBefore;
    if skipped {
      SkippedIsAfter(a, source, start, patternBefore, depth, index, pattern);
      return false, index, pattern, depth;
    }
    if StartsWord(a, source[start]) {
      var token: string;
      index, token := NextToken(a, source, start, patternBefore);
      TokenIsAfter(a, source, start, patternBefore, depth, index);
      if depth == 0 && token == "include" {
        return true, index, pattern, depth;
      }
      return false, index, token == "matches", depth;
    }
    index, pattern, depth := StepSymbol(a, source, start, patternBefore, depthBefore);
    return false, index, pattern, depth;
  }

  /** `_contains_yara_include_directive`: the answer of the unique lexing. */
  method ContainsInclude(a: Alphabet, source: string) returns (found: bool)
    requires Sensible(a)
    ensures found <==> Answer(a, source, false, 0)
  {
    var index: nat, depth: nat, pattern := 0, 0, false;
    while index < |source|
      invariant AnswerOf(a, Scan(source, false, 0)) <==> AnswerOf(a, Scan(Suffix(source, index), pattern, depth))
      decreases |source| - index
    {
      found, index, pattern, depth := Step(a, source, index, pattern, depth);
      if found {
        return;
      }
    }
    return false;
  }

  /** The scanner agrees with every way the grammar cuts the text, and there is one. */
  lemma AnswerIsGrammatical(a: Alphabet, source: string, ls: seq<Lexeme>)
    requires Sensible(a)
    ensures Lexes(a, Lex(a, source, false), source, false)
    ensures Lexes(a, ls, source, false) ==> (Answer(a, source, false, 0) <==> HasInclude(a, ls, 0))
  {
    LexIsTheLexing(a, source, false, Lex(a, source, false));
    LexIsTheLexing(a, source, false, ls);
  }
}
