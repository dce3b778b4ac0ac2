/** The scanner: comment stripping, the token state machine, and the lexeme list. */
module Scan {
  import opened Structs
  import opened Pl0Constants
  import Decimal

  const MAX_NUM_LENGTH := 5
  const MAX_TOKEN_LENGTH := 11

  const ERROR_INVALID_VAR_NAME := 1
  const ERROR_NUM_TOO_LONG := 2
  const ERROR_VAR_TOO_LONG := 3
  const ERROR_INVALID_SYMBOL := 4

  // ---------------------------------------------------------------------------
  // Comment stripping
  // ---------------------------------------------------------------------------

  /** The loop state of the comment stripper: the character read one step earlier
      (none before the first), whether a comment is open, and how many characters of
      a just-closed comment are still to be dropped. */
  datatype CleanState = CleanState(prev: Option<char>, comment: bool, offset: int)

  const CLEAN_START := CleanState(None, false, 0)

  /** Reading c closes or opens a comment: "/" then "*" opens one; inside a comment
      "*" then "/" closes it and asks to drop the two delimiter characters. */
  function CleanFlags(st: CleanState, c: char): (bool, int) {
    if st.prev == Some('/') && c == '*' then (true, st.offset)
    else if st.comment && st.prev == Some('*') && c == '/' then (false, 2)
    else (st.comment, st.offset)
  }

  /** What is written while c is read: the lagging character, unless a comment is open
      or it is one of the dropped delimiter characters. */
  function CleanEmit(st: CleanState, c: char): seq<char> {
    var (comment, offset) := CleanFlags(st, c);
    if !comment && st.prev.Some? && offset == 0 then [st.prev.value] else []
  }

  function CleanStep(st: CleanState, c: char): CleanState {
    var (comment, offset) := CleanFlags(st, c);
    var offset' := if !comment && st.prev.Some? && offset != 0 then offset - 1 else offset;
    CleanState(Some(c), comment, offset')
  }

  /** The loop state after reading s from st. */
  function CleanLoopFrom(st: CleanState, s: seq<char>): CleanState
    decreases |s|
  {
    if s == [] then st else CleanStep(CleanLoopFrom(st, s[..|s| - 1]), s[|s| - 1])
  }

  /** The characters written while reading s from st. */
  function CleanOutFrom(st: CleanState, s: seq<char>): seq<char>
    decreases |s|
  {
    if s == [] then []
    else CleanOutFrom(st, s[..|s| - 1]) + CleanEmit(CleanLoopFrom(st, s[..|s| - 1]), s[|s| - 1])
  }

  function CleanLoop(s: seq<char>): CleanState {
    CleanLoopFrom(CLEAN_START, s)
  }

  /** The clean text of a non-empty input: what the loop writes, then the last character
      unless a comment is still open. */
  function CleanOf(s: seq<char>): seq<char>
    requires s != []
  {
    var st := CleanLoop(s);
    CleanOutFrom(CLEAN_START, s) + (if !st.comment then [s[|s| - 1]] else [])
  }

  /** Reads the input with a one-character lag, dropping comments. */
  method CreateCleanInput(input: seq<char>) returns (clean: seq<char>)
    requires input != []
    ensures clean == CleanOf(input)
  {
    var prevChar: Option<char> := None;
    var comment := false;
    var offset := 0;
    clean := [];
    var i := 0;
    while i < |input|
      invariant 0 <= i <= |input|
      invariant CleanLoop(input[..i]) == CleanState(prevChar, comment, offset)
      invariant clean == CleanOutFrom(CLEAN_START, input[..i])
    {
      var currChar := input[i];
      assert input[..i + 1][..i] == input[..i];
      if prevChar == Some('/') && currChar == '*' {
        comment := true;
      } else if comment && prevChar == Some('*') && currChar == '/' {
        comment := false;
        offset := 2;
      }
      if !comment && prevChar.Some? {
        if offset == 0 {
          clean := clean + [prevChar.value];
        } else {
          offset := offset - 1;
        }
      }
      prevChar := Some(currChar);
      i := i + 1;
    }
    assert input[..i] == input;
    LastCharLags(input);
    if !comment {
      clean := clean + [prevChar.value];
    }
  }

  /** After a non-empty input the lagging character is the last one read. */
  lemma LastCharLags(s: seq<char>)
    requires s != []
    ensures CleanLoop(s).prev == Some(s[|s| - 1])
  {
  }

  // ---- properties of the comment stripper

  /** No "/" directly followed by "*" in s. */
  predicate NoOpener(s: seq<char>) {
    forall i :: 0 <= i < |s| - 1 ==> !(s[i] == '/' && s[i + 1] == '*')
  }

  /** No "*" directly followed by "/" in s. */
  predicate NoCloser(s: seq<char>) {
    forall i :: 0 <= i < |s| - 1 ==> !(s[i] == '*' && s[i + 1] == '/')
  }

  /** Reading x then y is reading y from the state x left behind. */
  lemma {:induction false} CleanSplit(st: CleanState, x: seq<char>, y: seq<char>)
    ensures CleanLoopFrom(st, x + y) == CleanLoopFrom(CleanLoopFrom(st, x), y)
    ensures CleanOutFrom(st, x + y) == CleanOutFrom(st, x) + CleanOutFrom(CleanLoopFrom(st, x), y)
    decreases |y|
  {
    if y == [] {
      assert x + y == x;
    } else {
      var y' := y[..|y| - 1];
      CleanSplit(st, x, y');
      assert (x + y)[..|x + y| - 1] == x + y';
      assert (x + y)[|x + y| - 1] == y[|y| - 1];
    }
  }

  /** One step outside any comment, not opening one, copies the lagging character. */
  lemma PlainStep(p: char, c: char)
    requires !(p == '/' && c == '*')
    ensures CleanStep(CleanState(Some(p), false, 0), c) == CleanState(Some(c), false, 0)
    ensures CleanEmit(CleanState(Some(p), false, 0), c) == [p]
  {
  }

  /** Outside comments every character but the lagging last one is copied. */
  lemma {:induction false} PlainCopied(s: seq<char>)
    requires s != [] && NoOpener(s)
    ensures CleanLoop(s) == CleanState(Some(s[|s| - 1]), false, 0)
    ensures CleanOutFrom(CLEAN_START, s) == s[..|s| - 1]
    decreases |s|
  {
    var t := s[..|s| - 1];
    var c := s[|s| - 1];
    if t != [] {
      assert NoOpener(t) by {
        forall i | 0 <= i < |t| - 1 ensures !(t[i] == '/' && t[i + 1] == '*') {
          assert t[i] == s[i] && t[i + 1] == s[i + 1];
        }
      }
      PlainCopied(t);
      var p := t[|t| - 1];
      assert p == s[|s| - 2];
      assert !(p == '/' && c == '*');
      PlainStep(p, c);
      assert CleanLoopFrom(CLEAN_START, t) == CleanState(Some(p), false, 0);
      assert CleanOutFrom(CLEAN_START, t) == t[..|t| - 1];
      assert t[..|t| - 1] + [p] == t;
    } else {
      assert CleanLoopFrom(CLEAN_START, t) == CLEAN_START;
    }
  }

  /** An input with no comment opener comes out unchanged. */
  lemma NoCommentUnchanged(s: seq<char>)
    requires s != [] && NoOpener(s)
    ensures CleanOf(s) == s
  {
    PlainCopied(s);
    assert s[..|s| - 1] + [s[|s| - 1]] == s;
  }

  /** Once "/" then "*" has opened a comment, nothing is written while no "*" then "/"
      follows. The opening "*" may serve as the "*" of the closer. */
  lemma {:induction false} InsideComment(m: seq<char>)
    requires m != [] && m[0] == '*' && NoCloser(m)
    ensures CleanLoopFrom(CleanState(Some('/'), false, 0), m) == CleanState(Some(m[|m| - 1]), true, 0)
    ensures CleanOutFrom(CleanState(Some('/'), false, 0), m) == []
    decreases |m|
  {
    var t := m[..|m| - 1];
    if t != [] {
      assert NoCloser(t) by {
        forall i | 0 <= i < |t| - 1 ensures !(t[i] == '*' && t[i + 1] == '/') {
          assert t[i] == m[i] && t[i + 1] == m[i + 1];
        }
      }
      InsideComment(t);
      assert !(m[|m| - 2] == '*' && m[|m| - 1] == '/');
    }
  }

  /** Text before a comment is kept when the comment opens. */
  lemma PrefixBeforeComment(a: seq<char>)
    requires NoOpener(a)
    ensures CleanLoop(a + ['/']) == CleanState(Some('/'), false, 0)
    ensures CleanOutFrom(CLEAN_START, a + ['/']) == a
  {
    var x := a + ['/'];
    assert NoOpener(x) by {
      forall i | 0 <= i < |x| - 1 ensures !(x[i] == '/' && x[i + 1] == '*') {
        if i < |a| - 1 {
          assert x[i] == a[i] && x[i + 1] == a[i + 1];
        }
      }
    }
    PlainCopied(x);
    assert x[..|x| - 1] == a;
  }

  /** Reading a whole comment, closer included, writes nothing after the text before it
      and leaves one delimiter character still to drop. */
  lemma ThroughCloser(a: seq<char>, m: seq<char>)
    requires NoOpener(a)
    requires m != [] && m[0] == '*' && m[|m| - 1] == '*' && NoCloser(m)
    ensures CleanLoop(a + ['/'] + m + ['/']) == CleanState(Some('/'), false, 1)
    ensures CleanOutFrom(CLEAN_START, a + ['/'] + m + ['/']) == a
  {
    var x := a + ['/'];
    PrefixBeforeComment(a);
    InsideComment(m);
    CleanSplit(CLEAN_START, x, m);
    var inside := CleanState(Some('*'), true, 0);
    assert CleanLoop(x + m) == inside;
    assert CleanStep(inside, '/') == CleanState(Some('/'), false, 1) && CleanEmit(inside, '/') == [];
    CleanSplit(CLEAN_START, x + m, ['/']);
  }

  /** After the closer, a first character other than "*" is dropped and leaves the
      stripper as it would be at the start of that text. */
  lemma AfterCloser(c: seq<char>)
    requires c != [] && c[0] != '*'
    ensures CleanLoopFrom(CleanState(Some('/'), false, 1), c) == CleanLoop(c)
    ensures CleanOutFrom(CleanState(Some('/'), false, 1), c) == CleanOutFrom(CLEAN_START, c)
  {
    var closed := CleanState(Some('/'), false, 1);
    var c0 := CleanState(Some(c[0]), false, 0);
    var one := [c[0]];
    assert one[..0] == [] && one[0] == c[0];
    assert CleanStep(closed, c[0]) == c0 && CleanEmit(closed, c[0]) == [];
    assert CleanStep(CLEAN_START, c[0]) == c0 && CleanEmit(CLEAN_START, c[0]) == [];
    assert CleanLoopFrom(closed, one) == c0 && CleanOutFrom(closed, one) == [];
    assert CleanLoopFrom(CLEAN_START, one) == c0 && CleanOutFrom(CLEAN_START, one) == [];
    CleanSplit(closed, one, c[1..]);
    CleanSplit(CLEAN_START, one, c[1..]);
    assert one + c[1..] == c;
  }

  /** A comment "/" + m + "/" (m starts and ends with "*", closes nowhere earlier) is
      dropped with both delimiters. After it the text is cleaned afresh, except that an
      input ending right after the closing "/" still gets that "/" written, and a "*"
      right after the closer would reopen a comment. */
  lemma CommentDropped(a: seq<char>, m: seq<char>, c: seq<char>)
    requires NoOpener(a)
    requires m != [] && m[0] == '*' && m[|m| - 1] == '*' && NoCloser(m)
    requires c == [] || c[0] != '*'
    ensures CleanOf(a + ['/'] + m + ['/'] + c) == a + (if c == [] then ['/'] else CleanOf(c))
  {
    var p := a + ['/'] + m + ['/'];
    ThroughCloser(a, m);
    if c == [] {
      assert p + c == p;
    } else {
      CleanSplit(CLEAN_START, p, c);
      AfterCloser(c);
      assert (p + c)[|p + c| - 1] == c[|c| - 1];
    }
  }

  /** A comment that is never closed swallows the rest of the input, without error. */
  lemma UnclosedCommentDropped(a: seq<char>, m: seq<char>)
    requires NoOpener(a)
    requires m != [] && m[0] == '*' && NoCloser(m)
    ensures CleanOf(a + ['/'] + m) == a
  {
    PrefixBeforeComment(a);
    InsideComment(m);
    CleanSplit(CLEAN_START, a + ['/'], m);
  }

  // ---------------------------------------------------------------------------
  // Character classes and token ids
  // ---------------------------------------------------------------------------

  /** Letters as the C locale's isalpha sees them. */
  predicate IsAlpha(c: char) {
    'a' <= c <= 'z' || 'A' <= c <= 'Z'
  }

  /** Blank characters as the C locale's isspace sees them: space, tab, newline,
      vertical tab, form feed and carriage return. */
  predicate IsSpace(c: char) {
    c == ' ' || '\t' <= c <= '\r'
  }

  predicate IsAlnum(c: char) {
    IsAlpha(c) || Decimal.IsDigit(c)
  }

  /** The characters a symbol token may start with. None of them is a letter, a digit
      or a blank, so the first character of a token fixes its class. */
  function IsValidSymbol(c: char): (r: bool)
    ensures r ==> !IsAlpha(c) && !Decimal.IsDigit(c) && !IsSpace(c)
  {
    c == '+' || c == '-' || c == '*' || c == '/' || c == '=' || c == '<' || c == '>' ||
    c == '(' || c == ')' || c == ',' || c == ';' || c == '.' || c == ':'
  }

  /** The two-character symbols: the first character read, then the one that completes it. */
  predicate IsPair(first: char, c: char) {
    (first == '<' && c == '>') || (first == '<' && c == '=') ||
    (first == '>' && c == '=') || (first == ':' && c == '=')
  }

  /** The reserved words and their token ids, in the order getID compares them. */
  const KEYWORD_IDS: seq<(string, int)> := [
    ("odd", ODD_SYM), ("begin", BEGIN_SYM), ("end", END_SYM), ("if", IF_SYM),
    ("then", THEN_SYM), ("while", WHILE_SYM), ("do", DO_SYM), ("call", CALL_SYM),
    ("const", CONST_SYM), ("var", VAR_SYM), ("procedure", PROC_SYM),
    ("write", WRITE_SYM), ("read", READ_SYM), ("else", ELSE_SYM)]

  /** The symbols and their token ids, in the order getID compares them. */
  const SYMBOL_IDS: seq<(string, int)> := [
    ("+", PLUS_SYM), ("-", MINUS_SYM), ("*", MULT_SYM), ("/", SLASH_SYM),
    ("=", EQL_SYM), ("<>", NEQ_SYM), ("<", LESS_SYM), ("<=", LEQ_SYM),
    (">", GTR_SYM), (">=", GEQ_SYM), ("(", LPAREN_SYM), (")", RPAREN_SYM),
    (",", COMMA_SYM), (";", SEMICOLON_SYM), (".", PERIOD_SYM), (":=", BECOMES_SYM)]

  /** The id of the first entry whose text is value, or fallback: a chain of string
      comparisons, one per entry. */
  function Lookup(table: seq<(string, int)>, value: string, fallback: int): int
    decreases |table|
  {
    if table == [] then fallback
    else if table[0].0 == value then table[0].1
    else Lookup(table[1..], value, fallback)
  }

  /** The token id of a token of the given class: a word is a keyword or an identifier,
      a number is NUM_SYM, a symbol is looked up, and anything else is -99. */
  function GetId(kind: int, value: string): int {
    if kind == ALPHA then Lookup(KEYWORD_IDS, value, IDENT_SYM)
    else if kind == NUMBER then NUM_SYM
    else if kind == SYMBOL then Lookup(SYMBOL_IDS, value, -99)
    else -99
  }

  /** The text of each keyword and symbol id; none for identifiers, numbers and others. */
  function Spelling(id: int): Option<string> {
    if id == ODD_SYM then Some("odd")
    else if id == BEGIN_SYM then Some("begin")
    else if id == END_SYM then Some("end")
    else if id == IF_SYM then Some("if")
    else if id == THEN_SYM then Some("then")
    else if id == WHILE_SYM then Some("while")
    else if id == DO_SYM then Some("do")
    else if id == CALL_SYM then Some("call")
    else if id == CONST_SYM then Some("const")
    else if id == VAR_SYM then Some("var")
    else if id == PROC_SYM then Some("procedure")
    else if id == WRITE_SYM then Some("write")
    else if id == READ_SYM then Some("read")
    else if id == ELSE_SYM then Some("else")
    else if id == PLUS_SYM then Some("+")
    else if id == MINUS_SYM then Some("-")
    else if id == MULT_SYM then Some("*")
    else if id == SLASH_SYM then Some("/")
    else if id == EQL_SYM then Some("=")
    else if id == NEQ_SYM then Some("<>")
    else if id == LESS_SYM then Some("<")
    else if id == LEQ_SYM then Some("<=")
    else if id == GTR_SYM then Some(">")
    else if id == GEQ_SYM then Some(">=")
    else if id == LPAREN_SYM then Some("(")
    else if id == RPAREN_SYM then Some(")")
    else if id == COMMA_SYM then Some(",")
    else if id == SEMICOLON_SYM then Some(";")
    else if id == PERIOD_SYM then Some(".")
    else if id == BECOMES_SYM then Some(":=")
    else None
  }

  /** Every keyword id is spelled as its keyword. */
  lemma KeywordsSpelled()
    ensures forall e :: e in KEYWORD_IDS ==> Spelling(e.1) == Some(e.0) && ODD_SYM <= e.1 <= ELSE_SYM
  {
    assert forall i :: 0 <= i < |KEYWORD_IDS| ==>
      Spelling(KEYWORD_IDS[i].1) == Some(KEYWORD_IDS[i].0) && ODD_SYM <= KEYWORD_IDS[i].1 <= ELSE_SYM;
  }

  /** Every symbol id is spelled as its symbol. */
  lemma SymbolsSpelled()
    ensures forall e :: e in SYMBOL_IDS ==> Spelling(e.1) == Some(e.0) && PLUS_SYM <= e.1 <= BECOMES_SYM
  {
    assert forall i :: 0 <= i < |SYMBOL_IDS| ==>
      Spelling(SYMBOL_IDS[i].1) == Some(SYMBOL_IDS[i].0) && PLUS_SYM <= SYMBOL_IDS[i].1 <= BECOMES_SYM;
  }

  /** A lookup that does not fall back finds an entry whose id is spelled as the text
      looked up, when every entry of the table is spelled as its text. */
  lemma {:induction false} LookupSpelled(table: seq<(string, int)>, value: string, fallback: int)
    requires forall e :: e in table ==> Spelling(e.1) == Some(e.0)
    ensures Lookup(table, value, fallback) == fallback || Spelling(Lookup(table, value, fallback)) == Some(value)
    decreases |table|
  {
    if table != [] && table[0].0 != value {
      LookupSpelled(table[1..], value, fallback);
    }
  }

  /** The ids a lookup can give: the fallback or an id of the table. */
  lemma {:induction false} LookupRange(table: seq<(string, int)>, value: string, fallback: int, lo: int, hi: int)
    requires forall e :: e in table ==> lo <= e.1 <= hi
    ensures Lookup(table, value, fallback) == fallback || lo <= Lookup(table, value, fallback) <= hi
    decreases |table|
  {
    if table != [] && table[0].0 != value {
      LookupRange(table[1..], value, fallback, lo, hi);
    }
  }

  /** A keyword or symbol id determines the token's text: the lexeme list, which keeps
      only the id of such tokens, loses nothing. Identifier and number ids come only
      from words and numbers. */
  lemma GetIdSpelled(kind: int, value: string)
    ensures kind == ALPHA && GetId(kind, value) != IDENT_SYM ==> Spelling(GetId(kind, value)) == Some(value)
    ensures kind == SYMBOL && GetId(kind, value) != -99 ==> Spelling(GetId(kind, value)) == Some(value)
    ensures kind == ALPHA ==> GetId(kind, value) == IDENT_SYM || ODD_SYM <= GetId(kind, value) <= ELSE_SYM
    ensures kind == SYMBOL ==> GetId(kind, value) == -99 || PLUS_SYM <= GetId(kind, value) <= BECOMES_SYM
  {
    if kind == ALPHA {
      KeywordsSpelled();
      LookupSpelled(KEYWORD_IDS, value, IDENT_SYM);
      LookupRange(KEYWORD_IDS, value, IDENT_SYM, ODD_SYM, ELSE_SYM);
    } else if kind == SYMBOL {
      SymbolsSpelled();
      LookupSpelled(SYMBOL_IDS, value, -99);
      LookupRange(SYMBOL_IDS, value, -99, PLUS_SYM, BECOMES_SYM);
    }
  }

  // ---------------------------------------------------------------------------
  // Tokens
  // ---------------------------------------------------------------------------

  /** A token and the position where reading resumes. */
  datatype Lexed = Lexed(token: Token, next: nat)

  const EOF_TOKEN := Token("EOF", 0, NOT_SET, 0, true)

  /** A lexical error: its message text replaces the token text, and no id is given. */
  function ErrorToken(error: nat, kind: int): Token {
    Token("Error " + Decimal.NatDigits(error), 0, kind, error, false)
  }

  /** A token read without error, before getID gives it its id. */
  function ReadToken(value: string, kind: int): Token {
    Token(value, 0, kind, 0, false)
  }

  /** The first non-blank position at or after i. */
  function SkipSpaces(s: string, i: nat): (j: nat)
    requires i <= |s|
    ensures i <= j <= |s| && (j < |s| ==> !IsSpace(s[j]))
    decreases |s| - i
  {
    if i < |s| && IsSpace(s[i]) then SkipSpaces(s, i + 1) else i
  }

  /** Everything SkipSpaces passes over is blank. */
  lemma {:induction false} SkippedBlank(s: string, i: nat)
    requires i <= |s|
    ensures forall k :: i <= k < SkipSpaces(s, i) ==> IsSpace(s[k])
    decreases |s| - i
  {
    if i < |s| && IsSpace(s[i]) {
      SkippedBlank(s, i + 1);
    }
  }

  /** The end of the run of letters and digits starting at i. */
  function AlnumEnd(s: string, i: nat): (k: nat)
    requires i <= |s|
    ensures i <= k <= |s| && (k < |s| ==> !IsAlnum(s[k]))
    decreases |s| - i
  {
    if i < |s| && IsAlnum(s[i]) then AlnumEnd(s, i + 1) else i
  }

  /** The run AlnumEnd measures is letters and digits only. */
  lemma {:induction false} AlnumRun(s: string, i: nat)
    requires i <= |s|
    ensures forall n :: i <= n < AlnumEnd(s, i) ==> IsAlnum(s[n])
    decreases |s| - i
  {
    if i < |s| && IsAlnum(s[i]) {
      AlnumRun(s, i + 1);
    }
  }

  /** The end of the run of digits starting at i. */
  function DigitEnd(s: string, i: nat): (k: nat)
    requires i <= |s|
    ensures i <= k <= |s| && (k < |s| ==> !Decimal.IsDigit(s[k]))
    decreases |s| - i
  {
    if i < |s| && Decimal.IsDigit(s[i]) then DigitEnd(s, i + 1) else i
  }

  /** The run DigitEnd measures is digits only. */
  lemma {:induction false} DigitRun(s: string, i: nat)
    requires i <= |s|
    ensures forall n :: i <= n < DigitEnd(s, i) ==> Decimal.IsDigit(s[n])
    decreases |s| - i
  {
    if i < |s| && Decimal.IsDigit(s[i]) {
      DigitRun(s, i + 1);
    }
  }

  /** A word starting with the letter at j: the whole run of letters and digits is read;
      longer than MAX_TOKEN_LENGTH it is error 3. */
  function LexWord(s: string, j: nat): Lexed
    requires j < |s| && IsAlpha(s[j])
  {
    var k := AlnumEnd(s, j + 1);
    if k - j <= MAX_TOKEN_LENGTH then Lexed(ReadToken(s[j..k], ALPHA), k)
    else Lexed(ErrorToken(ERROR_VAR_TOO_LONG, ALPHA), k)
  }

  /** A number starting with the digit at j: a letter right after the digits is error 1
      and is read with them; more than MAX_NUM_LENGTH digits is error 2. */
  function LexNumber(s: string, j: nat): Lexed
    requires j < |s| && Decimal.IsDigit(s[j])
  {
    var k := DigitEnd(s, j + 1);
    if k < |s| && IsAlpha(s[k]) then Lexed(ErrorToken(ERROR_INVALID_VAR_NAME, NUMBER), k + 1)
    else if k - j <= MAX_NUM_LENGTH then Lexed(ReadToken(s[j..k], NUMBER), k)
    else Lexed(ErrorToken(ERROR_NUM_TOO_LONG, NUMBER), k)
  }

  /** A symbol starting at j: a two-character symbol if the next character completes
      one; otherwise one character, unless the next one is not a letter, digit, blank or
      symbol character, which is error 4 and is read with it. */
  function LexSymbol(s: string, j: nat): Lexed
    requires j < |s| && IsValidSymbol(s[j])
  {
    if j + 1 == |s| then Lexed(ReadToken(s[j..j + 1], SYMBOL), j + 1)
    else if IsPair(s[j], s[j + 1]) then Lexed(ReadToken(s[j..j + 2], SYMBOL), j + 2)
    else if IsAlnum(s[j + 1]) || IsSpace(s[j + 1]) || IsValidSymbol(s[j + 1]) then
      Lexed(ReadToken(s[j..j + 1], SYMBOL), j + 1)
    else Lexed(ErrorToken(ERROR_INVALID_SYMBOL, SYMBOL), j + 2)
  }

  /** A token read without error: no blanks, a class fixed by its first character, and
      within the length limits. */
  predicate WellRead(t: Token) {
    t.error == 0 && !t.endOfFile && t.value != [] &&
    (forall k :: 0 <= k < |t.value| ==> !IsSpace(t.value[k])) &&
    t.kind in {ALPHA, NUMBER, SYMBOL} &&
    (t.kind == ALPHA ==> IsAlpha(t.value[0]) && |t.value| <= MAX_TOKEN_LENGTH) &&
    (t.kind == NUMBER ==> Decimal.AllDigits(t.value) && |t.value| <= MAX_NUM_LENGTH) &&
    (t.kind == SYMBOL ==> IsValidSymbol(t.value[0]) && |t.value| <= 2)
  }

  /** A valid token as the scanner makes them: well read, with the id getID gives it. */
  predicate ValidScanned(t: Token) {
    WellRead(t) && t.id == GetId(t.kind, t.value)
  }

  /** The token whose first character is the non-blank character at j, before its id is
      given. */
  function ReadAt(s: string, j: nat): Lexed
    requires j < |s| && !IsSpace(s[j])
  {
    if IsAlpha(s[j]) then LexWord(s, j)
    else if Decimal.IsDigit(s[j]) then LexNumber(s, j)
    else if IsValidSymbol(s[j]) then LexSymbol(s, j)
    else Lexed(ErrorToken(ERROR_INVALID_SYMBOL, NOT_SET), j + 1)
  }

  /** The token read from position start of the clean text s, before its id is given:
      blanks are skipped, and the first other character decides the class of the token. */
  function Read(s: string, start: nat): Lexed
    requires start <= |s|
  {
    var j := SkipSpaces(s, start);
    if j == |s| then Lexed(EOF_TOKEN, |s|) else ReadAt(s, j)
  }

  /** A token read without error gets the id getID gives it; errors and the end of the
      input keep id 0. */
  function Identify(t: Token): Token {
    if t.error == 0 && !t.endOfFile then t.(id := GetId(t.kind, t.value)) else t
  }

  /** The token read from position start of the clean text s, with its id. */
  function Lex(s: string, start: nat): (r: Lexed)
    requires start <= |s|
    ensures start <= r.next <= |s| && (!r.token.endOfFile ==> start < r.next)
  {
    var raw := Read(s, start);
    Lexed(Identify(raw.token), raw.next)
  }

  /** A token read from a non-blank character: its text is the input from there up to
      where reading resumes, or it is one of the four lexical errors. */
  lemma ReadAtResult(s: string, j: nat)
    requires j < |s| && !IsSpace(s[j])
    ensures var r := ReadAt(s, j);
      j < r.next <= |s| && !r.token.endOfFile &&
      (r.token.error == 0 ==> r.token.value == s[j..r.next] && WellRead(r.token)) &&
      (r.token.error != 0 ==> r.token.error in {1, 2, 3, 4})
  {
    var r := ReadAt(s, j);
    if r.token.error == 0 {
      var v := r.token.value;
      assert v == s[j..r.next];
      if IsAlpha(s[j]) {
        AlnumRun(s, j + 1);
        assert forall k :: 0 <= k < |v| ==> IsAlnum(v[k]) by {
          forall k | 0 <= k < |v| ensures IsAlnum(v[k]) {
            assert v[k] == s[j + k];
          }
        }
      } else if Decimal.IsDigit(s[j]) {
        DigitRun(s, j + 1);
        assert forall k :: 0 <= k < |v| ==> Decimal.IsDigit(v[k]) by {
          forall k | 0 <= k < |v| ensures Decimal.IsDigit(v[k]) {
            assert v[k] == s[j + k];
          }
        }
      } else {
        assert forall k :: 0 <= k < |v| ==> IsValidSymbol(v[k]);
      }
    }
  }

  /** What one read yields: the end of the input exactly when only blanks are left;
      otherwise a valid token, whose text is the input from the first non-blank
      character on, or one of the four lexical errors. */
  lemma LexResult(s: string, start: nat)
    requires start <= |s|
    ensures var r := Lex(s, start);
      (r.token.endOfFile <==> forall k :: start <= k < |s| ==> IsSpace(s[k])) &&
      (r.token.endOfFile ==> r.token == EOF_TOKEN && r.next == |s|) &&
      (!r.token.endOfFile ==> SkipSpaces(s, start) < r.next) &&
      (r.token.error == 0 && !r.token.endOfFile ==>
        r.token.value == s[SkipSpaces(s, start)..r.next] && ValidScanned(r.token)) &&
      (r.token.error != 0 ==> r.token.error in {1, 2, 3, 4} && !r.token.endOfFile)
  {
    var j := SkipSpaces(s, start);
    SkippedBlank(s, start);
    if j < |s| {
      ReadAtResult(s, j);
    }
  }

  /** The token a finished read yields: EOF if nothing but blanks was read, the error
      message if an error was seen, and otherwise the buffered text with its id. */
  ghost function Finish(kind: int, error: nat, value: string): Token {
    if value == [] then EOF_TOKEN
    else if error != 0 then ErrorToken(error, kind)
    else ReadToken(value, kind)
  }

  /** A word whose run of letters and digits ends at k has been read in full. */
  lemma WordRead(s: string, j: nat, k: nat, error: nat, buf: string)
    requires j < k <= |s| && IsAlpha(s[j]) && AlnumEnd(s, j + 1) == k && buf != []
    requires error == 0 ==> buf == s[j..k] && k - j <= MAX_TOKEN_LENGTH
    requires error != 0 ==> error == ERROR_VAR_TOO_LONG && k - j > MAX_TOKEN_LENGTH
    ensures Lexed(Finish(ALPHA, error, buf), k) == ReadAt(s, j)
  {
  }

  /** A number whose digits end at k, not followed by a letter, has been read in full. */
  lemma NumberRead(s: string, j: nat, k: nat, error: nat, buf: string)
    requires j < k <= |s| && Decimal.IsDigit(s[j]) && DigitEnd(s, j + 1) == k && buf != []
    requires k < |s| ==> !IsAlpha(s[k])
    requires error == 0 ==> buf == s[j..k] && k - j <= MAX_NUM_LENGTH
    requires error != 0 ==> error == ERROR_NUM_TOO_LONG && k - j > MAX_NUM_LENGTH
    ensures Lexed(Finish(NUMBER, error, buf), k) == ReadAt(s, j)
  {
  }

  /** A letter right after the digits of a number is read with them, as error 1. */
  lemma NumberLetter(s: string, j: nat, k: nat, buf: string)
    requires j < k < |s| && Decimal.IsDigit(s[j]) && DigitEnd(s, j + 1) == k && IsAlpha(s[k]) && buf != []
    ensures Lexed(Finish(NUMBER, ERROR_INVALID_VAR_NAME, buf), k + 1) == ReadAt(s, j)
  {
  }

  /** A symbol read as one character, as two, or with an invalid follower. */
  lemma SymbolRead(s: string, j: nat, k: nat, error: nat, buf: string)
    requires j < |s| && IsValidSymbol(s[j]) && j < k <= |s|
    requires k == j + 1 && error == 0 ==>
      buf == s[j..k] &&
      (k < |s| ==> !IsPair(s[j], s[k]) && (IsAlnum(s[k]) || IsSpace(s[k]) || IsValidSymbol(s[k])))
    requires k == j + 2 && error == 0 ==> buf == s[j..k] && IsPair(s[j], s[j + 1])
    requires error != 0 ==>
      k == j + 2 && error == ERROR_INVALID_SYMBOL && buf != [] &&
      !IsPair(s[j], s[j + 1]) && !(IsAlnum(s[j + 1]) || IsSpace(s[j + 1]) || IsValidSymbol(s[j + 1]))
    requires k <= j + 2
    ensures Lexed(Finish(SYMBOL, error, buf), k) == ReadAt(s, j)
  {
  }

  /** The reader's state after reading up to position i, for a token whose first
      non-blank character is at j: blanks only so far; a word, number or symbol partly
      read into buf; or a finished read that yields ReadAt(s, j). */
  ghost predicate Reading(s: string, j: nat, i: nat, kind: int, error: nat, buf: string, endToken: bool) {
    i <= |s| && j <= |s| && |buf| <= MAX_TOKEN_LENGTH && kind in {NOT_SET, ALPHA, NUMBER, SYMBOL} &&
    (kind == NOT_SET && !endToken ==> buf == [] && error == 0 && SkipSpaces(s, i) == j) &&
    (kind != NOT_SET || endToken ==> j < i && !IsSpace(s[j]) && buf != []) &&
    (kind == ALPHA && !endToken ==>
      IsAlpha(s[j]) && AlnumEnd(s, j + 1) == AlnumEnd(s, i) &&
      (error == 0 ==> buf == s[j..i]) &&
      (error != 0 ==> error == ERROR_VAR_TOO_LONG && |buf| == MAX_TOKEN_LENGTH && i - j > MAX_TOKEN_LENGTH)) &&
    (kind == NUMBER && !endToken ==>
      Decimal.IsDigit(s[j]) && DigitEnd(s, j + 1) == DigitEnd(s, i) &&
      (error == 0 ==> |buf| <= MAX_NUM_LENGTH && buf == s[j..i]) &&
      (error != 0 ==> error == ERROR_NUM_TOO_LONG && |buf| == MAX_NUM_LENGTH && i - j > MAX_NUM_LENGTH)) &&
    (kind == SYMBOL && !endToken ==> i == j + 1 && IsValidSymbol(s[j]) && buf == [s[j]] && error == 0) &&
    (endToken ==> Lexed(Finish(kind, error, buf), i) == ReadAt(s, j))
  }

  /** A blank before the token is skipped. */
  lemma BlankStep(s: string, j: nat, i: nat)
    requires Reading(s, j, i, NOT_SET, 0, [], false) && i < |s| && IsSpace(s[i])
    ensures Reading(s, j, i + 1, NOT_SET, 0, [], false)
  {
  }

  /** The first non-blank character fixes the class, or is an invalid symbol (error 4). */
  lemma FirstStep(s: string, j: nat, i: nat)
    requires Reading(s, j, i, NOT_SET, 0, [], false) && i < |s| && !IsSpace(s[i])
    ensures j == i
    ensures IsAlpha(s[i]) ==> Reading(s, j, i + 1, ALPHA, 0, [s[i]], false)
    ensures Decimal.IsDigit(s[i]) ==> Reading(s, j, i + 1, NUMBER, 0, [s[i]], false)
    ensures IsValidSymbol(s[i]) ==> Reading(s, j, i + 1, SYMBOL, 0, [s[i]], false)
    ensures !IsAlnum(s[i]) && !IsValidSymbol(s[i]) ==>
      Reading(s, j, i + 1, NOT_SET, ERROR_INVALID_SYMBOL, [s[i]], true)
  {
    assert s[j..i + 1] == [s[i]];
  }

  /** One more character of a word: kept while the buffer has room, error 3 past
      MAX_TOKEN_LENGTH, and anything else ends the word and is put back. */
  lemma WordStep(s: string, j: nat, i: nat, error: nat, buf: string)
    requires Reading(s, j, i, ALPHA, error, buf, false) && i < |s|
    ensures IsAlnum(s[i]) && |buf| < MAX_TOKEN_LENGTH ==> Reading(s, j, i + 1, ALPHA, error, buf + [s[i]], false)
    ensures IsAlnum(s[i]) && |buf| >= MAX_TOKEN_LENGTH ==>
      Reading(s, j, i + 1, ALPHA, ERROR_VAR_TOO_LONG, buf, false)
    ensures !IsAlnum(s[i]) ==> Reading(s, j, i, ALPHA, error, buf, true)
  {
    if IsAlnum(s[i]) && |buf| < MAX_TOKEN_LENGTH {
      assert s[j..i + 1] == s[j..i] + [s[i]];
    } else if !IsAlnum(s[i]) {
      WordRead(s, j, i, error, buf);
    }
  }

  /** One more character of a number: a digit is kept while the buffer has room and is
      error 2 past MAX_NUM_LENGTH; a letter is error 1; anything else ends the number
      and is put back. */
  lemma NumberStep(s: string, j: nat, i: nat, error: nat, buf: string)
    requires Reading(s, j, i, NUMBER, error, buf, false) && i < |s|
    ensures Decimal.IsDigit(s[i]) && |buf| < MAX_NUM_LENGTH ==>
      Reading(s, j, i + 1, NUMBER, error, buf + [s[i]], false)
    ensures Decimal.IsDigit(s[i]) && |buf| >= MAX_NUM_LENGTH ==>
      Reading(s, j, i + 1, NUMBER, ERROR_NUM_TOO_LONG, buf, false)
    ensures !Decimal.IsDigit(s[i]) && IsAlpha(s[i]) ==>
      Reading(s, j, i + 1, NUMBER, ERROR_INVALID_VAR_NAME, buf, true)
    ensures !Decimal.IsDigit(s[i]) && !IsAlpha(s[i]) ==> Reading(s, j, i, NUMBER, error, buf, true)
  {
    if Decimal.IsDigit(s[i]) && |buf| < MAX_NUM_LENGTH {
      assert s[j..i + 1] == s[j..i] + [s[i]];
    } else if !Decimal.IsDigit(s[i]) && IsAlpha(s[i]) {
      NumberLetter(s, j, i, buf);
    } else if !Decimal.IsDigit(s[i]) {
      NumberRead(s, j, i, error, buf);
    }
  }

  /** The character after a one-character symbol: it completes a two-character symbol,
      or is put back when it may start a token, or is an invalid symbol (error 4). */
  lemma SymbolStep(s: string, j: nat, i: nat, buf: string)
    requires Reading(s, j, i, SYMBOL, 0, buf, false) && i < |s|
    ensures buf == [s[j]]
    ensures IsPair(s[j], s[i]) ==> Reading(s, j, i + 1, SYMBOL, 0, buf + [s[i]], true)
    ensures !IsPair(s[j], s[i]) && (IsAlnum(s[i]) || IsSpace(s[i]) || IsValidSymbol(s[i])) ==>
      Reading(s, j, i, SYMBOL, 0, buf, true)
    ensures !IsPair(s[j], s[i]) && !(IsAlnum(s[i]) || IsSpace(s[i]) || IsValidSymbol(s[i])) ==>
      Reading(s, j, i + 1, SYMBOL, ERROR_INVALID_SYMBOL, buf, true)
  {
    if IsPair(s[j], s[i]) {
      assert buf + [s[i]] == s[j..j + 2];
      SymbolRead(s, j, i + 1, 0, buf + [s[i]]);
    } else if IsAlnum(s[i]) || IsSpace(s[i]) || IsValidSymbol(s[i]) {
      assert buf == s[j..j + 1];
      SymbolRead(s, j, i, 0, buf);
    } else {
      SymbolRead(s, j, i + 1, ERROR_INVALID_SYMBOL, buf);
    }
  }

  /** Once the read is finished, or the text is used up, the buffer holds what Read yields. */
  lemma ReadDone(s: string, start: nat, j: nat, i: nat, kind: int, error: nat, buf: string, endToken: bool)
    requires start <= |s| && j == SkipSpaces(s, start)
    requires Reading(s, j, i, kind, error, buf, endToken) && (endToken || i == |s|)
    ensures Lexed(Finish(kind, error, buf), i) == Read(s, start)
  {
    if !endToken {
      if kind == ALPHA {
        WordRead(s, j, i, error, buf);
      } else if kind == NUMBER {
        NumberRead(s, j, i, error, buf);
      } else if kind == SYMBOL {
        assert buf == s[j..j + 1];
        SymbolRead(s, j, i, error, buf);
      }
    }
  }

  /** The first non-blank character goes into the buffer and fixes the class of the
      token; a character of no class is error 4 and ends the token. */
  method FirstChar(buffer: array<char>, c: char, ghost s: string, ghost j: nat, ghost i: nat)
    returns (kind: int, error: nat, endToken: bool)
    requires buffer.Length == MAX_TOKEN_LENGTH + 1
    requires Reading(s, j, i, NOT_SET, 0, [], false) && i < |s| && c == s[i] && !IsSpace(c)
    modifies buffer
    ensures Reading(s, j, i + 1, kind, error, buffer[..1], endToken)
  {
    FirstStep(s, j, i);
    buffer[0] := c;
    assert buffer[..1] == [c];
    endToken := false;
    error := 0;
    if IsAlpha(c) {
      kind := ALPHA;
    } else if Decimal.IsDigit(c) {
      kind := NUMBER;
    } else if IsValidSymbol(c) {
      kind := SYMBOL;
    } else {
      kind := NOT_SET;
      endToken := true;
      error := ERROR_INVALID_SYMBOL;
    }
  }

  /** A character after the start of a word: a letter or digit is buffered while there
      is room and is error 3 past MAX_TOKEN_LENGTH; anything else ends the word and is
      to be put back. */
  method WordChar(buffer: array<char>, index: nat, error: nat, c: char, ghost s: string, ghost j: nat, ghost i: nat)
    returns (index': nat, error': nat, endToken: bool, putBack: bool)
    requires buffer.Length == MAX_TOKEN_LENGTH + 1 && index <= MAX_TOKEN_LENGTH
    requires Reading(s, j, i, ALPHA, error, buffer[..index], false) && i < |s| && c == s[i]
    modifies buffer
    ensures index' <= MAX_TOKEN_LENGTH && (putBack ==> endToken)
    ensures Reading(s, j, if putBack then i else i + 1, ALPHA, error', buffer[..index'], endToken)
  {
    WordStep(s, j, i, error, buffer[..index]);
    index', error', endToken, putBack := index, error, false, false;
    if IsAlnum(c) && index < MAX_TOKEN_LENGTH {
      buffer[index] := c;
      index' := index + 1;
      assert buffer[..index'] == old(buffer[..index]) + [c];
    } else if IsAlnum(c) {
      error' := ERROR_VAR_TOO_LONG;
    } else {
      endToken := true;
      putBack := true;
    }
  }

  /** A character after the start of a number: a digit is buffered while there is room
      and is error 2 past MAX_NUM_LENGTH; a letter is error 1 and ends the number;
      anything else ends it and is to be put back. */
  method NumberChar(buffer: array<char>, index: nat, error: nat, c: char, ghost s: string, ghost j: nat, ghost i: nat)
    returns (index': nat, error': nat, endToken: bool, putBack: bool)
    requires buffer.Length == MAX_TOKEN_LENGTH + 1 && index <= MAX_TOKEN_LENGTH
    requires Reading(s, j, i, NUMBER, error, buffer[..index], false) && i < |s| && c == s[i]
    modifies buffer
    ensures index' <= MAX_TOKEN_LENGTH && (putBack ==> endToken)
    ensures Reading(s, j, if putBack then i else i + 1, NUMBER, error', buffer[..index'], endToken)
  {
    NumberStep(s, j, i, error, buffer[..index]);
    index', error', endToken, putBack := index, error, false, false;
    if Decimal.IsDigit(c) && index < MAX_NUM_LENGTH {
      buffer[index] := c;
      index' := index + 1;
      assert buffer[..index'] == old(buffer[..index]) + [c];
    } else if Decimal.IsDigit(c) {
      error' := ERROR_NUM_TOO_LONG;
    } else if IsAlpha(c) {
      endToken := true;
      error' := ERROR_INVALID_VAR_NAME;
    } else {
      endToken := true;
      putBack := true;
    }
  }

  /** The character after a one-character symbol: it completes a two-character symbol,
      or is to be put back when it may start a token, or is error 4. The symbol ends. */
  method SymbolChar(buffer: array<char>, index: nat, c: char, ghost s: string, ghost j: nat, ghost i: nat)
    returns (index': nat, error: nat, putBack: bool)
    requires buffer.Length == MAX_TOKEN_LENGTH + 1 && index <= MAX_TOKEN_LENGTH
    requires Reading(s, j, i, SYMBOL, 0, buffer[..index], false) && i < |s| && c == s[i]
    modifies buffer
    ensures index' <= MAX_TOKEN_LENGTH
    ensures Reading(s, j, if putBack then i else i + 1, SYMBOL, error, buffer[..index'], true)
  {
    SymbolStep(s, j, i, buffer[..index]);
    index', error, putBack := index, 0, false;
    if IsPair(buffer[0], c) {
      buffer[index] := c;
      index' := index + 1;
      assert buffer[..index'] == old(buffer[..index]) + [c];
    } else if IsAlnum(c) || IsSpace(c) || IsValidSymbol(c) {
      putBack := true;
    } else {
      error := ERROR_INVALID_SYMBOL;
    }
  }

  /** Reads one token from position start of the clean text, a character at a time,
      stepping back one character where the C code seeks back in the file. */
  method NextToken(s: string, start: nat) returns (token: Token, next: nat)
    requires start <= |s|
    ensures Lexed(token, next) == Lex(s, start)
  {
    var buffer := new char[MAX_TOKEN_LENGTH + 1];
    var index: nat := 0;
    var kind := NOT_SET;
    var error: nat := 0;
    var endToken := false;
    var i: nat := start;
    ghost var j := SkipSpaces(s, start);
    while !endToken && i < |s|
      invariant index <= MAX_TOKEN_LENGTH && Reading(s, j, i, kind, error, buffer[..index], endToken)
      decreases !endToken, |s| - i
    {
      var c := s[i];
      var putBack := false;
      if kind == NOT_SET && !IsSpace(c) {
        kind, error, endToken := FirstChar(buffer, c, s, j, i);
        index := 1;
      } else if kind == ALPHA {
        index, error, endToken, putBack := WordChar(buffer, index, error, c, s, j, i);
      } else if kind == NUMBER {
        index, error, endToken, putBack := NumberChar(buffer, index, error, c, s, j, i);
      } else if kind == SYMBOL {
        index, error, putBack := SymbolChar(buffer, index, c, s, j, i);
        endToken := true;
      } else {
        BlankStep(s, j, i);
      }
      i := i + 1;
      if putBack {
        i := i - 1;
      }
    }
    ReadDone(s, start, j, i, kind, error, buffer[..index], endToken);
    if index == 0 {
      token := EOF_TOKEN;
    } else if error != 0 {
      token := ErrorToken(error, kind);
    } else {
      token := ReadToken(buffer[..index], kind);
    }
    next := i;
    if token.error == 0 && !token.endOfFile {
      token := token.(id := GetId(token.kind, token.value));
    }
  }

  // ---------------------------------------------------------------------------
  // Scanning a whole text, and the lexeme list
  // ---------------------------------------------------------------------------

  /** What scanning yields: the valid tokens in order, and the error that stopped it
      (0 when the end of the input was reached). */
  datatype Scanned = Scanned(tokens: seq<Token>, error: int)

  /** The tokens read from position pos until the end of the text or the first error. */
  function ScanFrom(s: string, pos: nat): Scanned
    requires pos <= |s|
    decreases |s| - pos
  {
    var l := Lex(s, pos);
    if l.token.endOfFile then Scanned([], 0)
    else if l.token.error != 0 then Scanned([], l.token.error)
    else
      var rest := ScanFrom(s, l.next);
      Scanned([l.token] + rest.tokens, rest.error)
  }

  /** A number or identifier text as the parser reads it back with `%d`: digits are an
      integer, anything else is a name. */
  function TextWord(text: string): Word {
    if text != [] && Decimal.AllDigits(text) then Int(Decimal.DigitsValue(text)) else Name(text)
  }

  /** The words one valid token adds to the lexeme list: its id, then the text of an
      identifier or a number. */
  function LexemeWords(t: Token): seq<Word> {
    if t.id == IDENT_SYM || t.id == NUM_SYM then [Int(t.id), TextWord(t.value)] else [Int(t.id)]
  }

  function LexemeList(ts: seq<Token>): seq<Word>
    decreases |ts|
  {
    if ts == [] then [] else LexemeList(ts[..|ts| - 1]) + LexemeWords(ts[|ts| - 1])
  }

  /** One step of ScanFrom, stated through the token Lex reads. */
  lemma ScanStep(s: string, pos: nat, token: Token, next: nat)
    requires pos <= |s| && Lexed(token, next) == Lex(s, pos)
    ensures token.endOfFile ==> ScanFrom(s, pos) == Scanned([], 0)
    ensures !token.endOfFile && token.error != 0 ==> ScanFrom(s, pos) == Scanned([], token.error)
    ensures !token.endOfFile && token.error == 0 ==>
      next <= |s| && ScanFrom(s, pos) == Scanned([token] + ScanFrom(s, next).tokens, ScanFrom(s, next).error)
  {
  }

  /** Reads the next token and states what it means for the scan from pos. */
  method ScanNext(s: string, pos: nat) returns (token: Token, next: nat)
    requires pos <= |s|
    ensures pos <= next <= |s| && (!token.endOfFile ==> pos < next)
    ensures token.endOfFile ==> token.error == 0 && ScanFrom(s, pos) == Scanned([], 0)
    ensures !token.endOfFile && token.error != 0 ==> ScanFrom(s, pos) == Scanned([], token.error)
    ensures !token.endOfFile && token.error == 0 ==>
      ScanFrom(s, pos) == Scanned([token] + ScanFrom(s, next).tokens, ScanFrom(s, next).error)
  {
    token, next := NextToken(s, pos);
    LexResult(s, pos);
    ScanStep(s, pos, token, next);
  }

  /** Scans the input: strips comments, then reads tokens until the end of the input or
      the first lexical error, writing each valid token to the lexeme list. */
  method Scan(input: string) returns (tokens: seq<Token>, error: int, list: seq<Word>)
    requires input != []
    ensures Scanned(tokens, error) == ScanFrom(CleanOf(input), 0)
    ensures list == LexemeList(tokens)
  {
    var clean := CreateCleanInput(input);
    tokens, error, list := ScanClean(clean);
  }

  /** The token loop over the clean text. */
  method ScanClean(clean: string) returns (tokens: seq<Token>, error: int, list: seq<Word>)
    ensures Scanned(tokens, error) == ScanFrom(clean, 0)
    ensures list == LexemeList(tokens)
  {
    tokens := [];
    list := [];
    error := 0;
    var pos := 0;
    var done := false;
    ghost var whole := ScanFrom(clean, 0);
    ghost var rest := whole;
    while !done
      invariant pos <= |clean|
      invariant !done ==> rest == ScanFrom(clean, pos)
      invariant done ==> rest == Scanned([], error)
      invariant whole == Scanned(tokens + rest.tokens, rest.error)
      invariant list == LexemeList(tokens)
      decreases |clean| - pos + (if done then 0 else 1)
    {
      var next;
      next, tokens, list, error, done, rest := ScanAdvance(clean, pos, whole, tokens, list);
      pos := next;
    }
    assert tokens + rest.tokens == tokens;
  }

  /** One pass of the token loop: reads a token and, when it is valid, appends it to
      the tokens and its words to the lexeme list; the scan of the whole text is still
      the tokens so far followed by the scan of what remains. */
  method ScanAdvance(clean: string, pos: nat, ghost whole: Scanned, tokens: seq<Token>, list: seq<Word>)
    returns (next: nat, tokens': seq<Token>, list': seq<Word>, error: int, done: bool, ghost rest: Scanned)
    requires pos <= |clean|
    requires whole == Scanned(tokens + ScanFrom(clean, pos).tokens, ScanFrom(clean, pos).error)
    requires list == LexemeList(tokens)
    ensures pos <= next <= |clean| && (!done ==> pos < next)
    ensures !done ==> rest == ScanFrom(clean, next)
    ensures done ==> rest == Scanned([], error)
    ensures whole == Scanned(tokens' + rest.tokens, rest.error)
    ensures list' == LexemeList(tokens')
  {
    var token;
    token, next := ScanNext(clean, pos);
    error := token.error;
    done := token.endOfFile || token.error != 0;
    if !done {
      rest := ScanFrom(clean, next);
      list' := list + LexemeWords(token);
      tokens' := tokens + [token];
      TokenAppended(whole, tokens, token, ScanFrom(clean, pos), rest);
      LexemeListSnoc(tokens, token);
    } else {
      rest := Scanned([], error);
      tokens', list' := tokens, list;
    }
  }

  lemma TokenAppended(whole: Scanned, tokens: seq<Token>, token: Token, here: Scanned, after: Scanned)
    requires whole == Scanned(tokens + here.tokens, here.error)
    requires here == Scanned([token] + after.tokens, after.error)
    ensures whole == Scanned((tokens + [token]) + after.tokens, after.error)
  {
    assert tokens + ([token] + after.tokens) == (tokens + [token]) + after.tokens;
  }

  lemma LexemeListSnoc(tokens: seq<Token>, token: Token)
    ensures LexemeList(tokens + [token]) == LexemeList(tokens) + LexemeWords(token)
  {
    assert (tokens + [token])[..|tokens|] == tokens;
  }

  /** Every token scanning yields is a valid one. */
  lemma {:induction false} ScanTokensValid(s: string, pos: nat)
    requires pos <= |s|
    ensures forall t :: t in ScanFrom(s, pos).tokens ==> ValidScanned(t)
    ensures ScanFrom(s, pos).error in {0, 1, 2, 3, 4}
    decreases |s| - pos
  {
    var l := Lex(s, pos);
    LexResult(s, pos);
    ScanStep(s, pos, l.token, l.next);
    if !l.token.endOfFile && l.token.error == 0 {
      ScanTokensValid(s, l.next);
    }
  }

  /** The text without its blanks. */
  function NonBlank(t: string): string
    decreases |t|
  {
    if t == [] then [] else (if IsSpace(t[0]) then [] else [t[0]]) + NonBlank(t[1..])
  }

  lemma {:induction false} NonBlankAppend(a: string, b: string)
    ensures NonBlank(a + b) == NonBlank(a) + NonBlank(b)
    decreases |a|
  {
    if a == [] {
      assert a + b == b;
    } else {
      var h := if IsSpace(a[0]) then [] else [a[0]];
      assert (a + b)[0] == a[0];
      assert (a + b)[1..] == a[1..] + b;
      assert NonBlank(a + b) == h + NonBlank(a[1..] + b);
      NonBlankAppend(a[1..], b);
      assert NonBlank(a) == h + NonBlank(a[1..]);
    }
  }

  lemma {:induction false} NonBlankOfBlanks(t: string)
    requires forall k :: 0 <= k < |t| ==> IsSpace(t[k])
    ensures NonBlank(t) == []
    decreases |t|
  {
    if t != [] {
      NonBlankOfBlanks(t[1..]);
    }
  }

  lemma {:induction false} NonBlankOfSolid(t: string)
    requires forall k :: 0 <= k < |t| ==> !IsSpace(t[k])
    ensures NonBlank(t) == t
    decreases |t|
  {
    if t != [] {
      NonBlankOfSolid(t[1..]);
      assert [t[0]] + t[1..] == t;
    }
  }

  lemma SliceSplit(s: string, a: nat, b: nat, c: nat)
    requires a <= b <= c <= |s|
    ensures s[a..] == s[a..b] + s[b..c] + s[c..]
  {
  }

  function Concat(ts: seq<Token>): string
    decreases |ts|
  {
    if ts == [] then [] else ts[0].value + Concat(ts[1..])
  }

  /** Scanning without a lexical error loses nothing but blanks: the token texts, one
      after the other, are the text without its blanks. */
  lemma {:induction false} ScanKeepsText(s: string, pos: nat)
    requires pos <= |s| && ScanFrom(s, pos).error == 0
    ensures Concat(ScanFrom(s, pos).tokens) == NonBlank(s[pos..])
    decreases |s| - pos
  {
    var l := Lex(s, pos);
    LexResult(s, pos);
    ScanStep(s, pos, l.token, l.next);
    if l.token.endOfFile {
      NonBlankOfBlanks(s[pos..]);
    } else {
      var rest := ScanFrom(s, l.next).tokens;
      ScanKeepsText(s, l.next);
      assert ([l.token] + rest)[1..] == rest;
      SkippedBlank(s, pos);
      TokenKeepsText(s, pos, SkipSpaces(s, pos), l.next, l.token.value);
    }
  }

  /** Blanks, then a token text without blanks: the blanks are all that is dropped. */
  lemma TokenKeepsText(s: string, pos: nat, j: nat, next: nat, value: string)
    requires pos <= j <= next <= |s| && value == s[j..next]
    requires forall k :: pos <= k < j ==> IsSpace(s[k])
    requires forall k :: 0 <= k < |value| ==> !IsSpace(value[k])
    ensures NonBlank(s[pos..]) == value + NonBlank(s[next..])
  {
    NonBlankOfBlanks(s[pos..j]);
    NonBlankOfSolid(value);
    SliceSplit(s, pos, j, next);
    NonBlankAppend(s[pos..j] + s[j..next], s[next..]);
    NonBlankAppend(s[pos..j], s[j..next]);
  }

  /** A lexeme as the parser sees it in the lexeme list. */
  datatype Lexeme = Sym(id: int) | Ident(name: string) | Num(value: int)

  /** The lexeme of a valid token. */
  function LexemeOf(t: Token): Lexeme {
    if t.id == IDENT_SYM then Ident(t.value)
    else if t.id == NUM_SYM && Decimal.AllDigits(t.value) then Num(Decimal.DigitsValue(t.value))
    else Sym(t.id)
  }

  /** Reads a lexeme list back: an id, followed by a name after IDENT_SYM and by an
      integer after NUM_SYM. */
  function DecodeLexemes(ws: seq<Word>): Option<seq<Lexeme>>
    decreases |ws|
  {
    if ws == [] then Some([])
    else if !ws[0].Int? then None
    else if ws[0].n == IDENT_SYM then
      if |ws| >= 2 && ws[1].Name? then
        match DecodeLexemes(ws[2..])
        case Some(rest) => Some([Ident(ws[1].s)] + rest)
        case None => None
      else None
    else if ws[0].n == NUM_SYM then
      if |ws| >= 2 && ws[1].Int? then
        match DecodeLexemes(ws[2..])
        case Some(rest) => Some([Num(ws[1].n)] + rest)
        case None => None
      else None
    else
      match DecodeLexemes(ws[1..])
      case Some(rest) => Some([Sym(ws[0].n)] + rest)
      case None => None
  }

  /** The lexemes of a token sequence. */
  function Lexemes(ts: seq<Token>): seq<Lexeme>
    decreases |ts|
  {
    if ts == [] then [] else [LexemeOf(ts[0])] + Lexemes(ts[1..])
  }

  /** The lexeme list of valid tokens reads back as their lexemes. */
  lemma {:induction false} LexemeListRoundTrip(ts: seq<Token>)
    requires forall t :: t in ts ==> ValidScanned(t)
    ensures DecodeLexemes(LexemeList(ts)) == Some(Lexemes(ts))
    decreases |ts|
  {
    if ts != [] {
      LexemeListCons(ts[0], ts[1..]);
      assert [ts[0]] + ts[1..] == ts;
      LexemeListRoundTrip(ts[1..]);
      DecodeAfter(ts[0], LexemeList(ts[1..]));
    }
  }

  /** The words of a valid token: an identifier's text is a name, a number's an integer. */
  lemma ValidLexeme(t: Token)
    requires ValidScanned(t)
    ensures t.id == IDENT_SYM ==> t.kind == ALPHA && LexemeWords(t) == [Int(IDENT_SYM), Name(t.value)]
    ensures t.id == NUM_SYM ==>
      t.kind == NUMBER && LexemeWords(t) == [Int(NUM_SYM), Int(Decimal.DigitsValue(t.value))]
  {
    GetIdSpelled(t.kind, t.value);
    if t.kind == ALPHA {
      assert !Decimal.IsDigit(t.value[0]);
    }
  }

  lemma {:induction false} LexemeListCons(t: Token, ts: seq<Token>)
    ensures LexemeList([t] + ts) == LexemeWords(t) + LexemeList(ts)
    decreases |ts|
  {
    if ts == [] {
      assert [t] + ts == [t];
      assert [t][..0] == [];
    } else {
      var init, last := ts[..|ts| - 1], ts[|ts| - 1];
      var whole := [t] + ts;
      LexemeListCons(t, init);
      assert whole[..|whole| - 1] == [t] + init && whole[|whole| - 1] == last;
      var head, mid, tail := LexemeWords(t), LexemeList(init), LexemeWords(last);
      calc {
        LexemeList(whole);
        LexemeList([t] + init) + tail;
        (head + mid) + tail;
        { assert (head + mid) + tail == head + (mid + tail); }
        head + (mid + tail);
      }
    }
  }

  /** The words of one valid token, read in front of any others. */
  lemma DecodeAfter(t: Token, ws: seq<Word>)
    requires ValidScanned(t)
    ensures DecodeLexemes(LexemeWords(t) + ws) ==
      match DecodeLexemes(ws)
      case Some(ls) => Some([LexemeOf(t)] + ls)
      case None => None
  {
    ValidLexeme(t);
    var w := LexemeWords(t) + ws;
    if t.id == IDENT_SYM || t.id == NUM_SYM {
      assert w[2..] == ws;
    } else {
      assert w[1..] == ws;
    }
  }
}
