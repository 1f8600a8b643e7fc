/** The scanner of the Rust bytecode port: produces one token per call,
    reading the source as UTF-8 bytes. Lexemes are slices of the source (or,
    for error tokens, the message); the line counter starts at 1. Where the
    code can panic (an index past the end, a slice that splits a character)
    the model yields `Panicked`. */
module RustScanner {
  import opened Common
  import Lexer

  type Byte = n: nat | n < 256

  datatype Kind =
    | LeftParen | RightParen | LeftBrace | RightBrace | Comma | Dot | Minus | Plus
    | Semicolon | Slash | Star
    | Bang | BangEqual | Equal | EqualEqual | Greater | GreaterEqual | Less | LessEqual
    | Identifier | String | Number
    | And | Class | Else | False | For | Fun | If | Nil | Or | Print | Return | Super
    | This | True | Var | While
    | Error | Eof

  /** A token's text: a slice of the source, or an error message. */
  datatype Lexeme = Slice(from: nat, to: nat) | Message(text: string)

  datatype Token = Token(kind: Kind, lexeme: Lexeme, line: nat)

  datatype Scanner = Scanner(src: seq<Byte>, start: nat, current: nat, line: nat)

  datatype Panic = IndexOutOfBounds | NotCharBoundary

  datatype Scan = Scanned(token: Token, next: Scanner) | Panicked(why: Panic)

  const UnexpectedCharacter := "Unexpected character."
  const UnterminatedString := "Unterminated string."

  // ---- bytes and characters ---------------------------------------------------

  /** The characters of `src[a..b]`, each byte read `as char`. */
  function Text(src: seq<Byte>, a: nat, b: nat): (t: string)
    requires a <= b <= |src|
    ensures |t| == b - a && forall i | 0 <= i < |t| :: t[i] == src[a + i] as char
    decreases b - a
  {
    if a == b then [] else Text(src, a, b - 1) + [src[b - 1] as char]
  }

  lemma TextAppend(src: seq<Byte>, a: nat, b: nat, c: nat)
    requires a <= b <= c <= |src|
    ensures Text(src, a, b) + Text(src, b, c) == Text(src, a, c)
  {
  }

  predicate IsAscii(b: Byte) {
    b < 0x80
  }

  predicate IsContinuation(b: Byte) {
    0x80 <= b < 0xC0
  }

  /** `str::is_char_boundary`: the ends of the text and every byte that is
      not the continuation of a multi-byte character. */
  predicate CharBoundary(src: seq<Byte>, i: nat) {
    i == 0 || i == |src| || (i < |src| && !IsContinuation(src[i]))
  }

  /** What `&str` guarantees that the scanner leans on: a continuation byte
      never starts the text and never follows an ASCII byte. */
  predicate Utf8(src: seq<Byte>) {
    forall i | 0 <= i < |src| :: Continues(src, i)
  }

  /** Byte `i` is not a continuation byte, or it follows a non-ASCII byte. */
  predicate Continues(src: seq<Byte>, i: nat)
    requires i < |src|
  {
    IsContinuation(src[i]) ==> i > 0 && !IsAscii(src[i - 1])
  }

  lemma BoundaryAfterAscii(src: seq<Byte>, i: nat)
    requires Utf8(src) && 0 < i <= |src| && IsAscii(src[i - 1])
    ensures CharBoundary(src, i)
  {
    if i < |src| {
      assert Continues(src, i);
    }
  }

  /** `is_alpha`: an ASCII letter or `_`. */
  predicate IsAlpha(c: char) {
    Lexer.IsAlpha(c)
  }

  predicate IsWordChar(c: char) {
    IsAlpha(c) || IsDigit(c)
  }

  /** A byte read as a letter, digit or punctuation mark is ASCII. */
  lemma AsciiChar(b: Byte)
    requires (b as char) < 128 as char
    ensures IsAscii(b)
  {
  }

  // ---- the kinds' texts -----------------------------------------------------------

  predicate IsWordKind(k: Kind) {
    k in {Identifier, And, Class, Else, False, For, Fun, If, Nil, Or, Print, Return,
          Super, This, True, Var, While}
  }

  /** The text of every punctuation and operator kind. */
  function Spelling(k: Kind): string {
    match k
    case LeftParen => "(" case RightParen => ")" case LeftBrace => "{" case RightBrace => "}"
    case Comma => "," case Dot => "." case Minus => "-" case Plus => "+"
    case Semicolon => ";" case Slash => "/" case Star => "*"
    case Bang => "!" case BangEqual => "!=" case Equal => "=" case EqualEqual => "=="
    case Greater => ">" case GreaterEqual => ">=" case Less => "<" case LessEqual => "<="
    case And => "and" case Class => "class" case Else => "else" case False => "false"
    case For => "for" case Fun => "fun" case If => "if" case Nil => "nil" case Or => "or"
    case Print => "print" case Return => "return" case Super => "super" case This => "this"
    case True => "true" case Var => "var" case While => "while"
    case _ => ""
  }

  /** The keyword a word spells, `Identifier` for every other word: the
      table the keyword trie stands for. */
  function KeywordOf(text: string): (k: Kind)
    ensures IsWordKind(k)
  {
    match |text|
    case 2 => if text == "if" then If else if text == "or" then Or else Identifier
    case 3 =>
      if text == "and" then And else if text == "for" then For
      else if text == "fun" then Fun else if text == "nil" then Nil
      else if text == "var" then Var else Identifier
    case 4 =>
      if text == "else" then Else else if text == "this" then This
      else if text == "true" then True else Identifier
    case 5 =>
      if text == "class" then Class else if text == "false" then False
      else if text == "print" then Print else if text == "super" then Super
      else if text == "while" then While else Identifier
    case 6 => if text == "return" then Return else Identifier
    case _ => Identifier
  }

  /** The single-character tokens. */
  function Punctuation(c: char): (k: Option<Kind>)
    ensures k.Some? ==> Spelling(k.value) == [c] && !IsWordKind(k.value)
  {
    match c
    case '(' => Some(LeftParen) case ')' => Some(RightParen)
    case '{' => Some(LeftBrace) case '}' => Some(RightBrace)
    case ';' => Some(Semicolon) case ',' => Some(Comma) case '.' => Some(Dot)
    case '-' => Some(Minus) case '+' => Some(Plus) case '/' => Some(Slash)
    case '*' => Some(Star)
    case _ => None
  }

  predicate IsComparisonStart(c: char) {
    c == '!' || c == '=' || c == '<' || c == '>'
  }

  /** `!`, `=`, `<`, `>`, each with or without a following `=`. */
  function Comparison(c: char, withEqual: bool): (k: Kind)
    requires IsComparisonStart(c)
    ensures Spelling(k) == [c] + (if withEqual then "=" else "") && !IsWordKind(k)
  {
    match c
    case '!' => if withEqual then BangEqual else Bang
    case '=' => if withEqual then EqualEqual else Equal
    case '<' => if withEqual then LessEqual else Less
    case '>' => if withEqual then GreaterEqual else Greater
  }

  /** What the text of a token of kind `k` looks like. In the intended
      reading a word's kind is the keyword it spells, if any. */
  predicate Shaped(rd: Reading, k: Kind, text: string) {
    match k
    case Number => Lexer.IsNumberText(text)
    case String => Lexer.IsStringText(text)
    case Eof => text == ""
    case Error => true
    case _ =>
      if IsWordKind(k) then Lexer.IsIdentifierText(text) && (rd == Intended ==> k == KeywordOf(text))
      else text == Spelling(k)
  }

  // ---- the primitive steps ---------------------------------------------------------

  function New(src: seq<Byte>): (s: Scanner)
    ensures s.current == 0 && s.line == 1
  {
    Scanner(src, 0, 0, 1)
  }

  predicate IsAtEnd(s: Scanner) {
    |s.src| <= s.current
  }

  /** `peek`: the current byte, NUL at the end. */
  function Peek(s: Scanner): (c: char)
    ensures !IsAtEnd(s) ==> c == s.src[s.current] as char
  {
    if IsAtEnd(s) then '\0' else s.src[s.current] as char
  }

  /** `peek_next`. As written it guards only against being at the end, so
      on the last byte it indexes one past the end and panics; the intended
      guard, as in the TypeScript scanner, is that a next byte exists. The
      two readings agree whenever the first does not panic. */
  function PeekNext(rd: Reading, s: Scanner): (r: Result<char, Panic>)
    ensures r.Err? <==> rd == AsWritten && s.current + 1 == |s.src|
    ensures r.Ok? ==> r.value == if s.current + 1 < |s.src| then s.src[s.current + 1] as char else '\0'
  {
    if rd == AsWritten then
      if IsAtEnd(s) then Ok('\0')
      else if s.current + 1 < |s.src| then Ok(s.src[s.current + 1] as char)
      else Err(IndexOutOfBounds)
    else if |s.src| <= s.current + 1 then Ok('\0')
    else Ok(s.src[s.current + 1] as char)
  }

  /** `matches`: consumes the current byte when it is `c`. */
  function Matches(s: Scanner, c: char): (r: (bool, Scanner))
    ensures r.0 <==> !IsAtEnd(s) && s.src[s.current] as char == c
    ensures r.1 == if r.0 then s.(current := s.current + 1) else s
  {
    if IsAtEnd(s) then (false, s)
    else if s.src[s.current] as char != c then (false, s)
    else (true, s.(current := s.current + 1))
  }

  /** Where `peek_next` does not panic it is `peek` one byte further on:
      the next byte, or NUL past the end. */
  lemma PeekNextAhead(rd: Reading, s: Scanner)
    ensures PeekNext(rd, s).Ok? ==> PeekNext(rd, s).value == Peek(s.(current := s.current + 1))
    ensures PeekNext(Intended, s).Ok?
  {
  }

  /** `matches` consumes a byte exactly when `peek` shows the character
      asked for and the scanner is not at the end (where `peek` shows NUL);
      otherwise the scanner is left as it was. */
  lemma MatchesPeek(s: Scanner, c: char)
    ensures Matches(s, c).0 <==> !IsAtEnd(s) && Peek(s) == c
    ensures Matches(s, c).0 ==> Matches(s, c).1 == s.(current := s.current + 1)
    ensures !Matches(s, c).0 ==> Matches(s, c).1 == s
  {
  }

  /** `make_token`: the slice from `start` to `current`, which must not
      split a character (the slice would panic). */
  function MakeToken(s: Scanner, kind: Kind): (t: Token)
    requires s.start <= s.current <= |s.src|
    requires CharBoundary(s.src, s.start) && CharBoundary(s.src, s.current)
    ensures t.kind == kind && t.line == s.line && t.lexeme == Slice(s.start, s.current)
  {
    Token(kind, Slice(s.start, s.current), s.line)
  }

  function ErrorToken(s: Scanner, message: string): (t: Token)
    ensures t.kind == Error && t.line == s.line && t.lexeme == Message(message)
  {
    Token(Error, Message(message), s.line)
  }

  // ---- whitespace and comments ------------------------------------------------

  /** The line-comment loop: up to the next newline or the end. */
  function LineEnd(src: seq<Byte>, i: nat): (j: nat)
    requires i <= |src|
    ensures i <= j <= |src| && (j == |src| || src[j] as char == '\n')
    ensures forall k | i <= k < j :: src[k] as char != '\n'
    decreases |src| - i
  {
    if i < |src| && src[i] as char != '\n' then LineEnd(src, i + 1) else i
  }

  lemma NoNewlinesIn(src: seq<Byte>, a: nat, b: nat)
    requires a <= b <= |src| && forall k | a <= k < b :: src[k] as char != '\n'
    ensures Lexer.Newlines(Text(src, a, b)) == 0
  {
    Lexer.NoNewlines(Text(src, a, b));
  }

  /** `src[a..b]` is what `skip_whitespace` passes over: spaces, carriage
      returns, tabs, newlines and line comments, each comment running from
      its two slashes up to the next newline or the end of the source. */
  predicate Blank(src: seq<Byte>, a: nat, b: nat)
    requires a <= b <= |src|
    decreases b - a
  {
    || a == b
    || (src[a] as char in {' ', '\r', '\t', '\n'} && Blank(src, a + 1, b))
    || (a + 1 < b && src[a] as char == '/' && src[a + 1] as char == '/'
        && LineEnd(src, a) <= b && Blank(src, LineEnd(src, a), b))
  }

  /** A line comment followed by blanks is blank. */
  lemma BlankComment(src: seq<Byte>, a: nat, b: nat)
    requires a + 1 < |src| && src[a] as char == '/' && src[a + 1] as char == '/'
    requires LineEnd(src, a) <= b <= |src| && Blank(src, LineEnd(src, a), b)
    ensures Blank(src, a, b)
  {
    assert LineEnd(src, a) > a + 1;
  }

  /** `skip_whitespace`: spaces, tabs, carriage returns, newlines (counted)
      and line comments. It stops before anything else, and before a slash
      that does not start a comment; deciding that can panic as written. */
  function SkipWhitespace(rd: Reading, s: Scanner): (r: Result<Scanner, Panic>)
    requires s.current <= |s.src|
    ensures r.Err? ==> rd == AsWritten
    ensures r.Ok? ==> r.value == s.(current := r.value.current, line := r.value.line)
    ensures r.Ok? ==> s.current <= r.value.current <= |s.src|
    ensures r.Ok? ==> r.value.line == s.line + Lexer.Newlines(Text(s.src, s.current, r.value.current))
    ensures r.Ok? && !IsAtEnd(r.value) ==>
              Peek(r.value) !in {' ', '\r', '\t', '\n'}
              && (Peek(r.value) == '/' ==> PeekNext(rd, r.value) != Ok('/'))
    decreases |s.src| - s.current
  {
    var c := Peek(s);
    if !IsAtEnd(s) && (c == ' ' || c == '\r' || c == '\t' || c == '\n') then
      var s1 := s.(current := s.current + 1, line := if c == '\n' then s.line + 1 else s.line);
      var r := SkipWhitespace(rd, s1);
      if r.Ok? then
        TextAppend(s.src, s.current, s1.current, r.value.current);
        Lexer.NewlinesAppend(Text(s.src, s.current, s1.current), Text(s.src, s1.current, r.value.current));
        assert Text(s.src, s.current, s1.current) == [c];
        r
      else r
    else if !IsAtEnd(s) && c == '/' then
      match PeekNext(rd, s)
      case Err(p) => Err(p)
      case Ok(next) =>
        if next == '/' then
          var s1 := s.(current := LineEnd(s.src, s.current));
          var r := SkipWhitespace(rd, s1);
          if r.Ok? then
            NoNewlinesIn(s.src, s.current, s1.current);
            TextAppend(s.src, s.current, s1.current, r.value.current);
            Lexer.NewlinesAppend(Text(s.src, s.current, s1.current), Text(s.src, s1.current, r.value.current));
            r
          else r
        else Ok(s)
    else Ok(s)
  }

  /** Past a blank, `skip_whitespace` goes on from the next byte. */
  function SkipBlank(s: Scanner): Scanner
    requires s.current < |s.src|
  {
    s.(current := s.current + 1, line := if s.src[s.current] as char == '\n' then s.line + 1 else s.line)
  }

  lemma SkipBlankStep(rd: Reading, s: Scanner)
    requires s.current < |s.src| && s.src[s.current] as char in {' ', '\r', '\t', '\n'}
    ensures SkipWhitespace(rd, s) == SkipWhitespace(rd, SkipBlank(s))
  {
  }

  lemma SkipCommentStep(rd: Reading, s: Scanner)
    requires s.current < |s.src| && s.src[s.current] as char == '/' && PeekNext(rd, s) == Ok('/')
    ensures SkipWhitespace(rd, s) == SkipWhitespace(rd, s.(current := LineEnd(s.src, s.current)))
  {
  }

  lemma SkipStopStep(rd: Reading, s: Scanner)
    requires s.current <= |s.src|
    requires s.current < |s.src| ==> s.src[s.current] as char !in {' ', '\r', '\t', '\n'}
    requires s.current < |s.src| && s.src[s.current] as char == '/' ==> PeekNext(rd, s) != Ok('/')
    ensures SkipWhitespace(rd, s).Ok? ==> SkipWhitespace(rd, s).value == s
  {
  }

  /** All that `skip_whitespace` passes over is blanks and line comments. */
  lemma {:induction false} SkipWhitespaceBlank(rd: Reading, s: Scanner)
    requires s.current <= |s.src|
    ensures SkipWhitespace(rd, s).Ok? ==> Blank(s.src, s.current, SkipWhitespace(rd, s).value.current)
    decreases |s.src| - s.current, 1
  {
    if s.current < |s.src| && s.src[s.current] as char in {' ', '\r', '\t', '\n'} {
      BlankPastBlank(rd, s);
    } else if s.current < |s.src| && s.src[s.current] as char == '/' && PeekNext(rd, s) == Ok('/') {
      BlankPastComment(rd, s);
    } else {
      SkipStopStep(rd, s);
    }
  }

  lemma {:induction false} BlankPastBlank(rd: Reading, s: Scanner)
    requires s.current < |s.src| && s.src[s.current] as char in {' ', '\r', '\t', '\n'}
    ensures SkipWhitespace(rd, s).Ok? ==> Blank(s.src, s.current, SkipWhitespace(rd, s).value.current)
    decreases |s.src| - s.current, 0
  {
    SkipBlankStep(rd, s);
    SkipWhitespaceBlank(rd, SkipBlank(s));
  }

  lemma {:induction false} BlankPastComment(rd: Reading, s: Scanner)
    requires s.current < |s.src| && s.src[s.current] as char == '/' && PeekNext(rd, s) == Ok('/')
    ensures SkipWhitespace(rd, s).Ok? ==> Blank(s.src, s.current, SkipWhitespace(rd, s).value.current)
    decreases |s.src| - s.current, 0
  {
    var s1 := s.(current := LineEnd(s.src, s.current));
    assert s.src[s.current + 1] as char == '/';
    SkipCommentStep(rd, s);
    SkipWhitespaceBlank(rd, s1);
    if SkipWhitespace(rd, s1).Ok? {
      BlankComment(s.src, s.current, SkipWhitespace(rd, s1).value.current);
    }
  }

  // ---- the token loops ------------------------------------------------------------

  /** The identifier loop: letters, digits and underscores. */
  function WordEnd(src: seq<Byte>, i: nat): (j: nat)
    requires i <= |src|
    ensures i <= j <= |src| && (j == |src| || !IsWordChar(src[j] as char))
    ensures forall k | i <= k < j :: IsWordChar(src[k] as char)
    decreases |src| - i
  {
    if i < |src| && IsWordChar(src[i] as char) then WordEnd(src, i + 1) else i
  }

  /** The digit loop of `number`. */
  function DigitsEnd(src: seq<Byte>, i: nat): (j: nat)
    requires i <= |src|
    ensures i <= j <= |src| && (j == |src| || !IsDigit(src[j] as char))
    ensures forall k | i <= k < j :: IsDigit(src[k] as char)
    decreases |src| - i
  {
    if i < |src| && IsDigit(src[i] as char) then DigitsEnd(src, i + 1) else i
  }

  /** The string loop: up to the closing quote or the end, counting the
      newlines it passes. */
  function StringEnd(src: seq<Byte>, i: nat, line: nat): (r: (nat, nat))
    requires i <= |src|
    ensures i <= r.0 <= |src| && (r.0 == |src| || src[r.0] as char == '"')
    ensures forall k | i <= k < r.0 :: src[k] as char != '"'
    ensures r.1 == line + Lexer.Newlines(Text(src, i, r.0))
    decreases |src| - i
  {
    if i < |src| && src[i] as char != '"' then
      var r := StringEnd(src, i + 1, if src[i] as char == '\n' then line + 1 else line);
      TextAppend(src, i, i + 1, r.0);
      Lexer.NewlinesAppend(Text(src, i, i + 1), Text(src, i + 1, r.0));
      r
    else
      (i, line)
  }

  /** Letters, digits and dots are ASCII and are not newlines. */
  lemma PlainRun(src: seq<Byte>, a: nat, b: nat)
    requires a <= b <= |src| && forall k | a <= k < b :: IsWordChar(src[k] as char) || src[k] as char == '.'
    ensures forall k | a <= k < b :: IsAscii(src[k]) && src[k] as char != '\n'
    ensures Lexer.Newlines(Text(src, a, b)) == 0
  {
    forall k | a <= k < b ensures IsAscii(src[k]) && src[k] as char != '\n' {
      AsciiChar(src[k]);
    }
    NoNewlinesIn(src, a, b);
  }

  /** A word being scanned: `start` at a letter, every byte up to `current`
      a letter or digit. */
  predicate InWord(s: Scanner) {
    && s.start < s.current <= |s.src| && Utf8(s.src)
    && IsAlpha(s.src[s.start] as char)
    && forall k | s.start <= k < s.current :: IsWordChar(s.src[k] as char)
  }

  /** `check_keyword`: whether the word is `start` bytes already matched
      followed by `rest`. As written the comparison slices the source at
      `start` counted from the beginning of the whole source, not of the
      word, and that slice panics when it splits a character; the intended
      slice begins at the word's own `start`. */
  function CheckKeyword(rd: Reading, s: Scanner, start: nat, rest: string, kind: Kind): (r: Result<Kind, Panic>)
    requires InWord(s) && 1 <= start && |rest| > 0
    ensures r.Err? ==> rd == AsWritten
    ensures r.Ok? ==> r.value == kind || r.value == Identifier
  {
    var len := s.current - s.start;
    if len != |rest| + start then Ok(Identifier)
    else
      var from := if rd == AsWritten then start else s.start + start;
      assert from + |rest| <= s.current;
      if rd == AsWritten then
        if !CharBoundary(s.src, from) || !CharBoundary(s.src, from + |rest|) then Err(NotCharBoundary)
        else KeywordCompare(s, from, rest, kind)
      else
        KeywordCompare(s, from, rest, kind)
  }

  function KeywordCompare(s: Scanner, from: nat, rest: string, kind: Kind): (r: Result<Kind, Panic>)
    requires from + |rest| <= |s.src|
    ensures r == Ok(if Text(s.src, from, from + |rest|) == rest then kind else Identifier)
  {
    if Text(s.src, from, from + |rest|) == rest then Ok(kind) else Ok(Identifier)
  }

  /** `identifier_kind`: a trie on the first letter (and, for `f` and `t`,
      the second) of the word. */
  function WordKind(rd: Reading, s: Scanner): (r: Result<Kind, Panic>)
    requires InWord(s)
    ensures r.Err? ==> rd == AsWritten
    ensures r.Ok? ==> IsWordKind(r.value)
  {
    match s.src[s.start] as char
    case 'a' => CheckKeyword(rd, s, 1, "nd", And)
    case 'c' => CheckKeyword(rd, s, 1, "lass", Class)
    case 'e' => CheckKeyword(rd, s, 1, "lse", Else)
    case 'f' =>
      if 1 < s.current - s.start then
        match s.src[s.start + 1] as char
        case 'a' => CheckKeyword(rd, s, 2, "lse", False)
        case 'o' => CheckKeyword(rd, s, 2, "r", For)
        case 'u' => CheckKeyword(rd, s, 2, "n", Fun)
        case _ => Ok(Identifier)
      else Ok(Identifier)
    case 'i' => CheckKeyword(rd, s, 1, "f", If)
    case 'n' => CheckKeyword(rd, s, 1, "il", Nil)
    case 'o' => CheckKeyword(rd, s, 1, "r", Or)
    case 'p' => CheckKeyword(rd, s, 1, "rint", Print)
    case 'r' => CheckKeyword(rd, s, 1, "eturn", Return)
    case 's' => CheckKeyword(rd, s, 1, "uper", Super)
    case 't' =>
      if 1 < s.current - s.start then
        match s.src[s.start + 1] as char
        case 'h' => CheckKeyword(rd, s, 2, "is", This)
        case 'r' => CheckKeyword(rd, s, 2, "ue", True)
        case _ => Ok(Identifier)
      else Ok(Identifier)
    case 'v' => CheckKeyword(rd, s, 1, "ar", Var)
    case 'w' => CheckKeyword(rd, s, 1, "hile", While)
    case _ => Ok(Identifier)
  }

  /** In the intended reading the trie finds exactly the keyword the word
      spells. */
  lemma IntendedKeywords(s: Scanner)
    requires InWord(s)
    ensures WordKind(Intended, s) == Ok(KeywordOf(Text(s.src, s.start, s.current)))
  {
    var t := Text(s.src, s.start, s.current);
    var c := s.src[s.start] as char;
    assert t[0] == c;
    if c == 'f' || c == 't' {
      IntendedSecondLetter(s);
    } else if c in {'a', 'c', 'e', 'i', 'n', 'o', 'p', 'r', 's', 'v', 'w'} {
      IntendedFirstLetter(s);
    } else {
      assert KeywordOf(t) == Identifier;
    }
  }

  /** The keywords told apart by their first letter alone. */
  lemma IntendedFirstLetter(s: Scanner)
    requires InWord(s)
    requires s.src[s.start] as char in {'a', 'c', 'e', 'i', 'n', 'o', 'p', 'r', 's', 'v', 'w'}
    ensures WordKind(Intended, s) == Ok(KeywordOf(Text(s.src, s.start, s.current)))
  {
    var t := Text(s.src, s.start, s.current);
    var c := s.src[s.start] as char;
    var k := FirstLetterKind(c);
    var word := Spelling(k);
    TrieFirst(Intended, s);
    assert Text(s.src, s.start, s.start + 1) == word[..1];
    CheckKeywordIntended(s, 1, word[1..], k, word);
    KeywordOfFirst(t, c);
  }

  /** The trie's branch for a first letter that decides the keyword. */
  lemma TrieFirst(rd: Reading, s: Scanner)
    requires InWord(s)
    requires s.src[s.start] as char in {'a', 'c', 'e', 'i', 'n', 'o', 'p', 'r', 's', 'v', 'w'}
    ensures var k := FirstLetterKind(s.src[s.start] as char);
            WordKind(rd, s) == CheckKeyword(rd, s, 1, Spelling(k)[1..], k)
  {
    var c := s.src[s.start] as char;
    if c in {'a', 'c', 'e', 'i', 'n'} {
      TrieFirstEarly(rd, s);
    } else if c in {'o', 'p', 'r'} {
      TrieFirstLate(rd, s);
    } else if c == 's' {
      TrieOfS(rd, s);
    } else if c == 'v' {
      TrieOfV(rd, s);
    } else {
      TrieOfW(rd, s);
    }
  }

  lemma TrieFirstEarly(rd: Reading, s: Scanner)
    requires InWord(s) && s.src[s.start] as char in {'a', 'c', 'e', 'i', 'n'}
    ensures var k := FirstLetterKind(s.src[s.start] as char);
            WordKind(rd, s) == CheckKeyword(rd, s, 1, Spelling(k)[1..], k)
  {
    match s.src[s.start] as char
    case 'a' => assert Spelling(And)[1..] == "nd";
    case 'c' => assert Spelling(Class)[1..] == "lass";
    case 'e' => assert Spelling(Else)[1..] == "lse";
    case 'i' => assert Spelling(If)[1..] == "f";
    case 'n' => assert Spelling(Nil)[1..] == "il";
  }

  lemma TrieFirstLate(rd: Reading, s: Scanner)
    requires InWord(s) && s.src[s.start] as char in {'o', 'p', 'r'}
    ensures var k := FirstLetterKind(s.src[s.start] as char);
            WordKind(rd, s) == CheckKeyword(rd, s, 1, Spelling(k)[1..], k)
  {
    match s.src[s.start] as char
    case 'o' => assert Spelling(Or)[1..] == "r";
    case 'p' => assert Spelling(Print)[1..] == "rint";
    case 'r' => assert Spelling(Return)[1..] == "eturn";
  }

  lemma TrieOfS(rd: Reading, s: Scanner)
    requires InWord(s) && s.src[s.start] as char == 's'
    ensures WordKind(rd, s) == CheckKeyword(rd, s, 1, Spelling(Super)[1..], Super)
  {
    assert Spelling(Super)[1..] == "uper";
  }

  lemma TrieOfV(rd: Reading, s: Scanner)
    requires InWord(s) && s.src[s.start] as char == 'v'
    ensures WordKind(rd, s) == CheckKeyword(rd, s, 1, Spelling(Var)[1..], Var)
  {
    assert Spelling(Var)[1..] == "ar";
  }

  lemma TrieOfW(rd: Reading, s: Scanner)
    requires InWord(s) && s.src[s.start] as char == 'w'
    ensures WordKind(rd, s) == CheckKeyword(rd, s, 1, Spelling(While)[1..], While)
  {
    assert Spelling(While)[1..] == "hile";
  }

  /** Among the keywords, a word's first letter leaves one candidate. */
  lemma KeywordOfFirst(t: string, c: char)
    requires |t| > 0 && t[0] == c && c in {'a', 'c', 'e', 'i', 'n', 'o', 'p', 'r', 's', 'v', 'w'}
    ensures KeywordOf(t) == if t == Spelling(FirstLetterKind(c)) then FirstLetterKind(c) else Identifier
  {
    var k := FirstLetterKind(c);
    if t == Spelling(k) {
      SpellingKeyword(k);
    } else if KeywordOf(t) != Identifier {
      KeywordSpelling(t);
      FirstLetterDecides(KeywordOf(t));
      assert false;
    }
  }

  /** The table and the spellings agree one way: a word the table calls a
      keyword is that keyword's spelling... */
  lemma KeywordSpelling(t: string)
    ensures KeywordOf(t) != Identifier ==> Spelling(KeywordOf(t)) == t
  {
    if |t| <= 3 {
      ShortKeywordSpelling(t);
    } else {
      LongKeywordSpelling(t);
    }
  }

  lemma ShortKeywordSpelling(t: string)
    requires |t| <= 3
    ensures KeywordOf(t) != Identifier ==> Spelling(KeywordOf(t)) == t
  {
  }

  lemma LongKeywordSpelling(t: string)
    requires |t| > 3
    ensures KeywordOf(t) != Identifier ==> Spelling(KeywordOf(t)) == t
  {
  }

  /** ...and the other: every keyword's spelling is classified as it. */
  lemma SpellingKeyword(k: Kind)
    requires IsWordKind(k) && k != Identifier
    ensures KeywordOf(Spelling(k)) == k
  {
    if k in {If, Or, And, For, Fun, Nil, Var} {
      ShortSpellings(k);
    } else {
      LongSpellings(k);
    }
  }

  /** The keywords of two and three letters. */
  lemma ShortSpellings(k: Kind)
    requires k in {If, Or, And, For, Fun, Nil, Var}
    ensures KeywordOf(Spelling(k)) == k
  {
    match k
    case If => case Or => case And => case For => case Fun => case Nil => case Var =>
  }

  /** The keywords of four letters or more. */
  lemma LongSpellings(k: Kind)
    requires k in {Else, This, True, Class, False, Print, Super, While, Return}
    ensures KeywordOf(Spelling(k)) == k
  {
    match k
    case Else => case This => case True => case Class => case False =>
    case Print => case Super => case While => case Return =>
  }

  /** A keyword whose first letter is one of those the trie decides on
      alone is the one that letter selects. */
  lemma FirstLetterDecides(k: Kind)
    requires IsWordKind(k) && k != Identifier
    requires Spelling(k)[0] in {'a', 'c', 'e', 'i', 'n', 'o', 'p', 'r', 's', 'v', 'w'}
    ensures k == FirstLetterKind(Spelling(k)[0])
  {
    if k in {And, Class, Else, If, Nil} {
      EarlyLetterDecides(k);
    } else if k in {Or, Print, Return, Super, Var, While} {
      LateLetterDecides(k);
    } else {
      OtherLetters(k);
    }
  }

  lemma EarlyLetterDecides(k: Kind)
    requires k in {And, Class, Else, If, Nil}
    ensures Spelling(k)[0] in {'a', 'c', 'e', 'i', 'n'} && k == EarlyLetterKind(Spelling(k)[0])
  {
  }

  lemma LateLetterDecides(k: Kind)
    requires k in {Or, Print, Return, Super, Var, While}
    ensures Spelling(k)[0] in {'o', 'p', 'r', 's', 'v', 'w'} && k == LateLetterKind(Spelling(k)[0])
  {
  }

  /** The other keywords begin with `f` or `t`. */
  lemma OtherLetters(k: Kind)
    requires IsWordKind(k) && k != Identifier && !(k in {And, Class, Else, If, Nil, Or, Print, Return, Super, Var, While})
    ensures Spelling(k)[0] in {'f', 't'}
  {
  }

  function FirstLetterKind(c: char): (k: Kind)
    requires c in {'a', 'c', 'e', 'i', 'n', 'o', 'p', 'r', 's', 'v', 'w'}
    ensures |Spelling(k)| >= 2 && Spelling(k)[0] == c
  {
    if c in {'a', 'c', 'e', 'i', 'n'} then EarlyLetterKind(c) else LateLetterKind(c)
  }

  function EarlyLetterKind(c: char): (k: Kind)
    requires c in {'a', 'c', 'e', 'i', 'n'}
    ensures |Spelling(k)| >= 2 && Spelling(k)[0] == c
  {
    match c
    case 'a' => And case 'c' => Class case 'e' => Else case 'i' => If case 'n' => Nil
  }

  function LateLetterKind(c: char): (k: Kind)
    requires c in {'o', 'p', 'r', 's', 'v', 'w'}
    ensures |Spelling(k)| >= 2 && Spelling(k)[0] == c
  {
    match c
    case 'o' => Or case 'p' => Print case 'r' => Return
    case 's' => Super case 'v' => Var case 'w' => While
  }

  /** The keywords under `f` and `t`, told apart by their second letter. */
  lemma IntendedSecondLetter(s: Scanner)
    requires InWord(s)
    requires s.src[s.start] as char in {'f', 't'}
    ensures WordKind(Intended, s) == Ok(KeywordOf(Text(s.src, s.start, s.current)))
  {
    TrieSecond(Intended, s);
    if 1 < s.current - s.start {
      IntendedSecondLetterLong(s);
    } else {
      KeywordOfShort(Text(s.src, s.start, s.current), s.src[s.start] as char);
    }
  }

  lemma IntendedSecondLetterLong(s: Scanner)
    requires InWord(s) && 1 < s.current - s.start
    requires s.src[s.start] as char in {'f', 't'}
    ensures var k := SecondLetterKind(s.src[s.start] as char, s.src[s.start + 1] as char);
            (if k.Some? then CheckKeyword(Intended, s, 2, Spelling(k.value)[2..], k.value) else Ok(Identifier))
            == Ok(KeywordOf(Text(s.src, s.start, s.current)))
  {
    var t := Text(s.src, s.start, s.current);
    var c := s.src[s.start] as char;
    var d := s.src[s.start + 1] as char;
    KeywordOfSecond(t, c, d);
    if SecondLetterKind(c, d).Some? {
      SecondKeywordIntended(s);
    }
  }

  /** Under a second letter that names a keyword, the word is that keyword
      exactly when it spells it. */
  lemma SecondKeywordIntended(s: Scanner)
    requires InWord(s) && 1 < s.current - s.start
    requires SecondLetterKind(s.src[s.start] as char, s.src[s.start + 1] as char).Some?
    ensures var k := SecondLetterKind(s.src[s.start] as char, s.src[s.start + 1] as char).value;
            CheckKeyword(Intended, s, 2, Spelling(k)[2..], k)
            == Ok(if Text(s.src, s.start, s.current) == Spelling(k) then k else Identifier)
  {
    var k := SecondLetterKind(s.src[s.start] as char, s.src[s.start + 1] as char).value;
    var word := Spelling(k);
    assert Text(s.src, s.start, s.start + 2) == word[..2];
    CheckKeywordIntended(s, 2, word[2..], k, word);
  }

  /** The trie's branches under `f` and `t`. */
  lemma TrieSecond(rd: Reading, s: Scanner)
    requires InWord(s)
    requires s.src[s.start] as char in {'f', 't'}
    ensures 1 < s.current - s.start ==>
              var k := SecondLetterKind(s.src[s.start] as char, s.src[s.start + 1] as char);
              WordKind(rd, s) == if k.Some? then CheckKeyword(rd, s, 2, Spelling(k.value)[2..], k.value) else Ok(Identifier)
    ensures 1 >= s.current - s.start ==> WordKind(rd, s) == Ok(Identifier)
  {
    if 1 < s.current - s.start {
      if s.src[s.start] as char == 'f' {
        TrieOfF(rd, s);
      } else {
        TrieOfT(rd, s);
      }
    }
  }

  lemma TrieOfF(rd: Reading, s: Scanner)
    requires InWord(s) && 1 < s.current - s.start && s.src[s.start] as char == 'f'
    ensures var k := SecondLetterKind('f', s.src[s.start + 1] as char);
            WordKind(rd, s) == if k.Some? then CheckKeyword(rd, s, 2, Spelling(k.value)[2..], k.value) else Ok(Identifier)
  {
    assert Spelling(False)[2..] == "lse";
    assert Spelling(For)[2..] == "r";
    assert Spelling(Fun)[2..] == "n";
  }

  lemma TrieOfT(rd: Reading, s: Scanner)
    requires InWord(s) && 1 < s.current - s.start && s.src[s.start] as char == 't'
    ensures var k := SecondLetterKind('t', s.src[s.start + 1] as char);
            WordKind(rd, s) == if k.Some? then CheckKeyword(rd, s, 2, Spelling(k.value)[2..], k.value) else Ok(Identifier)
  {
    assert Spelling(This)[2..] == "is";
    assert Spelling(True)[2..] == "ue";
  }

  lemma KeywordOfSecond(t: string, c: char, d: char)
    requires |t| > 1 && t[0] == c && t[1] == d && c in {'f', 't'}
    ensures KeywordOf(t) == if SecondLetterKind(c, d).Some? && t == Spelling(SecondLetterKind(c, d).value)
                            then SecondLetterKind(c, d).value else Identifier
  {
    if c == 'f' {
      KeywordOfF(t);
      SecondOfF(t);
    } else {
      KeywordOfT(t);
      SecondOfT(t);
    }
  }

  /** The keywords that begin with `f`. */
  lemma KeywordOfF(t: string)
    requires |t| > 1 && t[0] == 'f'
    ensures KeywordOf(t) == if t == "false" then False else if t == "for" then For
                            else if t == "fun" then Fun else Identifier
  {
  }

  /** Among them, the second letter leaves one candidate. */
  lemma SecondOfF(t: string)
    requires |t| > 1 && t[0] == 'f'
    ensures var k := SecondLetterKind('f', t[1]);
            (if t == "false" then False else if t == "for" then For else if t == "fun" then Fun else Identifier)
            == if k.Some? && t == Spelling(k.value) then k.value else Identifier
  {
    match t[1]
    case 'a' => assert t != "for" && t != "fun";
    case 'o' => assert t != "false" && t != "fun";
    case 'u' => assert t != "false" && t != "for";
    case _ => assert t != "false" && t != "for" && t != "fun";
  }

  /** The keywords that begin with `t`. */
  lemma KeywordOfT(t: string)
    requires |t| > 1 && t[0] == 't'
    ensures KeywordOf(t) == if t == "this" then This else if t == "true" then True else Identifier
  {
  }

  lemma SecondOfT(t: string)
    requires |t| > 1 && t[0] == 't'
    ensures var k := SecondLetterKind('t', t[1]);
            (if t == "this" then This else if t == "true" then True else Identifier)
            == if k.Some? && t == Spelling(k.value) then k.value else Identifier
  {
    match t[1]
    case 'h' => assert t != "true";
    case 'r' => assert t != "this";
    case _ => assert t != "this" && t != "true";
  }

  lemma KeywordOfShort(t: string, c: char)
    requires |t| == 1 && t[0] == c && c in {'f', 't'}
    ensures KeywordOf(t) == Identifier
  {
  }

  function SecondLetterKind(c: char, d: char): (k: Option<Kind>)
    ensures k.Some? ==> |Spelling(k.value)| >= 3 && Spelling(k.value)[0] == c && Spelling(k.value)[1] == d
  {
    if c == 'f' && d == 'a' then Some(False)
    else if c == 'f' && d == 'o' then Some(For)
    else if c == 'f' && d == 'u' then Some(Fun)
    else if c == 't' && d == 'h' then Some(This)
    else if c == 't' && d == 'r' then Some(True)
    else None
  }

  /** Intended `check_keyword`: the word is the keyword exactly when its
      remaining bytes spell the rest of it. */
  lemma CheckKeywordIntended(s: Scanner, start: nat, rest: string, kind: Kind, word: string)
    requires InWord(s) && 1 <= start < |word| && start < s.current - s.start + 1 && rest == word[start..]
    requires Text(s.src, s.start, s.start + start) == word[..start]
    ensures CheckKeyword(Intended, s, start, rest, kind)
            == Ok(if Text(s.src, s.start, s.current) == word then kind else Identifier)
  {
    if s.current - s.start == |rest| + start {
      CheckKeywordFitsIntended(s, start, rest, kind);
      TextAppend(s.src, s.start, s.start + start, s.current);
      assert word == word[..start] + rest;
    } else {
      assert |Text(s.src, s.start, s.current)| != |word|;
    }
  }

  // ---- one token -----------------------------------------------------------------

  /** What a scanned token satisfies, scanned from position `from` at line
      `line0`: the scanner moved forward over its text, the line counter
      counts the newlines passed, only the end of the source gives `Eof`,
      every other token is non-empty, and a token that is not an error is
      the slice of the source from its start, on character boundaries, with
      the text its kind calls for. */
  predicate TokenOk(rd: Reading, src: seq<Byte>, from: nat, line0: nat, r: Scan) {
    r.Scanned? ==>
      var t := r.token;
      var n := r.next;
      && n.src == src && from <= n.start <= n.current <= |src|
      && t.line == n.line && n.line == line0 + Lexer.Newlines(Text(src, from, n.current))
      && (t.kind == Eof <==> n.start == |src|)
      && (t.kind != Eof ==> n.start < n.current)
      && (t.kind == Error ==> t.lexeme == Message(UnexpectedCharacter) || t.lexeme == Message(UnterminatedString))
      && (t.kind != Error ==>
            && t.lexeme == Slice(n.start, n.current)
            && CharBoundary(src, n.start) && CharBoundary(src, n.current)
            && Shaped(rd, t.kind, Text(src, n.start, n.current)))
  }

  /** A token begun at `s.start` with its first byte consumed. */
  predicate Begun(s: Scanner) {
    s.start + 1 == s.current <= |s.src| && Utf8(s.src) && s.src[s.start] as char != '\n'
  }

  /** A run of letters, digits and dots is ASCII: both its ends are
      character boundaries and it passes no newline. */
  lemma AsciiRunBounds(src: seq<Byte>, a: nat, b: nat)
    requires Utf8(src) && a < b <= |src|
    requires forall k | a <= k < b :: IsWordChar(src[k] as char) || src[k] as char == '.'
    ensures CharBoundary(src, a) && CharBoundary(src, b)
    ensures Lexer.Newlines(Text(src, a, b)) == 0
  {
    PlainRun(src, a, b);
    BoundaryAfterAscii(src, b);
  }

  /** `identifier`. */
  function ScanWord(rd: Reading, s: Scanner): (r: Scan)
    requires Begun(s) && IsAlpha(s.src[s.start] as char)
    ensures r.Panicked? ==> rd == AsWritten
    ensures r.Scanned? ==> IsWordKind(r.token.kind)
  {
    var s1 := s.(current := WordEnd(s.src, s.current));
    AsciiRunBounds(s.src, s1.start, s1.current);
    match WordKind(rd, s1)
    case Err(p) => Panicked(p)
    case Ok(k) => Scanned(MakeToken(s1, k), s1)
  }

  /** A word token is the maximal word, a slice on character boundaries
      with identifier text; in the intended reading its kind is the keyword
      that text spells, or identifier. */
  lemma ScanWordOk(rd: Reading, s: Scanner)
    requires Begun(s) && IsAlpha(s.src[s.start] as char)
    ensures TokenOk(rd, s.src, s.start, s.line, ScanWord(rd, s))
  {
    var w := s.(current := WordEnd(s.src, s.current));
    WordScanned(rd, s);
    match WordKind(rd, w)
    case Err(_) =>
    case Ok(k) => WordToken(rd, w, k);
  }

  lemma WordToken(rd: Reading, s: Scanner, k: Kind)
    requires InWord(s) && (s.current == |s.src| || !IsWordChar(s.src[s.current] as char))
    requires WordKind(rd, s) == Ok(k)
    ensures CharBoundary(s.src, s.start) && CharBoundary(s.src, s.current)
    ensures TokenOk(rd, s.src, s.start, s.line, Scanned(MakeToken(s, k), s))
  {
    AsciiRunBounds(s.src, s.start, s.current);
    IntendedKeywords(s);
    var t := Text(s.src, s.start, s.current);
    IdentifierText(s);
    WordShaped(rd, k, t);
    SliceToken(rd, s, k, s.start, s.line, Scanned(MakeToken(s, k), s));
  }

  lemma IdentifierText(s: Scanner)
    requires InWord(s)
    ensures Lexer.IsIdentifierText(Text(s.src, s.start, s.current))
  {
  }

  lemma WordShaped(rd: Reading, k: Kind, t: string)
    requires IsWordKind(k) && Lexer.IsIdentifierText(t) && (rd == Intended ==> k == KeywordOf(t))
    ensures Shaped(rd, k, t)
  {
  }

  /** A token that is a non-empty slice, on character boundaries, with the
      text its kind calls for, scanned from `from` at line `line0`. */
  lemma SliceToken(rd: Reading, s: Scanner, k: Kind, from: nat, line0: nat, r: Scan)
    requires from <= s.start < s.current <= |s.src| && k != Eof && k != Error
    requires CharBoundary(s.src, s.start) && CharBoundary(s.src, s.current)
    requires s.line == line0 + Lexer.Newlines(Text(s.src, from, s.current))
    requires Shaped(rd, k, Text(s.src, s.start, s.current))
    requires r == Scanned(Token(k, Slice(s.start, s.current), s.line), s)
    ensures TokenOk(rd, s.src, from, line0, r)
  {
  }

  /** `number`: digits, then a dot and more digits when a digit follows
      the dot. */
  function ScanNumber(rd: Reading, s: Scanner): (r: Scan)
    requires Begun(s) && IsDigit(s.src[s.start] as char)
    ensures r.Panicked? ==> rd == AsWritten
    ensures r.Scanned? ==> r.token.kind == Number
  {
    var s1 := s.(current := DigitsEnd(s.src, s.current));
    if Peek(s1) == '.' then
      match PeekNext(rd, s1)
      case Err(p) => Panicked(p)
      case Ok(c) =>
        if IsDigit(c) then
          var s2 := s1.(current := DigitsEnd(s.src, s1.current + 1));
          FractionRun(s.src, s.start, s1.current, s2.current);
          Scanned(MakeToken(s2, Number), s2)
        else
          WholeNumber(s1)
    else
      WholeNumber(s1)
  }

  /** Digits, a dot and digits are a run of ASCII. */
  lemma FractionRun(src: seq<Byte>, a: nat, dot: nat, b: nat)
    requires Utf8(src) && a < dot && dot + 1 < b <= |src| && src[dot] as char == '.'
    requires forall k | a <= k < dot :: IsDigit(src[k] as char)
    requires forall k | dot + 1 <= k < b :: IsDigit(src[k] as char)
    ensures CharBoundary(src, a) && CharBoundary(src, b) && Lexer.Newlines(Text(src, a, b)) == 0
  {
    assert forall k | a <= k < b :: IsWordChar(src[k] as char) || src[k] as char == '.';
    AsciiRunBounds(src, a, b);
  }

  /** A number without a fraction, ending at `s.current`. */
  function WholeNumber(s: Scanner): (r: Scan)
    requires s.start < s.current <= |s.src| && Utf8(s.src)
    requires forall k | s.start <= k < s.current :: IsDigit(s.src[k] as char)
    ensures r.Scanned? && r.token.kind == Number && r.next == s
  {
    AsciiRunBounds(s.src, s.start, s.current);
    Scanned(MakeToken(s, Number), s)
  }

  /** A number token is digits with an optional fraction, a slice on
      character boundaries; only the code as written panics on the way. */
  lemma ScanNumberOk(rd: Reading, s: Scanner)
    requires Begun(s) && IsDigit(s.src[s.start] as char)
    ensures TokenOk(rd, s.src, s.start, s.line, ScanNumber(rd, s))
  {
    var s1 := s.(current := DigitsEnd(s.src, s.current));
    if Peek(s1) == '.' && PeekNext(rd, s1).Ok? && IsDigit(PeekNext(rd, s1).value) {
      FractionNumberOk(rd, s);
    } else if Peek(s1) == '.' && PeekNext(rd, s1).Err? {
    } else {
      assert ScanNumber(rd, s) == WholeNumber(s1);
      WholeNumberOk(rd, s1, ScanNumber(rd, s));
    }
  }

  lemma FractionNumberOk(rd: Reading, s: Scanner)
    requires Begun(s) && IsDigit(s.src[s.start] as char)
    requires var s1 := s.(current := DigitsEnd(s.src, s.current));
             Peek(s1) == '.' && PeekNext(rd, s1).Ok? && IsDigit(PeekNext(rd, s1).value)
    ensures TokenOk(rd, s.src, s.start, s.line, ScanNumber(rd, s))
  {
    var s1 := s.(current := DigitsEnd(s.src, s.current));
    var s2 := s1.(current := DigitsEnd(s.src, s1.current + 1));
    FractionIs(rd, s);
    FractionToken(rd, s.src, s.start, s1.current, s2.current, s.line, ScanNumber(rd, s));
  }

  /** The token of digits, a dot and digits. */
  lemma FractionToken(rd: Reading, src: seq<Byte>, a: nat, dot: nat, b: nat, line: nat, r: Scan)
    requires Utf8(src) && a < dot && dot + 1 < b <= |src| && src[dot] as char == '.'
    requires forall k | a <= k < dot :: IsDigit(src[k] as char)
    requires forall k | dot + 1 <= k < b :: IsDigit(src[k] as char)
    requires r == Scanned(Token(Number, Slice(a, b), line), Scanner(src, a, b, line))
    ensures TokenOk(rd, src, a, line, r)
  {
    FractionRun(src, a, dot, b);
    FractionText(src, a, dot, b);
    SliceToken(rd, Scanner(src, a, b, line), Number, a, line, r);
  }

  /** A number with a fraction runs from its first digit to the end of the
      digits after the dot. */
  lemma FractionIs(rd: Reading, s: Scanner)
    requires Begun(s) && IsDigit(s.src[s.start] as char)
    requires var s1 := s.(current := DigitsEnd(s.src, s.current));
             Peek(s1) == '.' && PeekNext(rd, s1).Ok? && IsDigit(PeekNext(rd, s1).value)
    ensures var s1 := s.(current := DigitsEnd(s.src, s.current));
            var s2 := s1.(current := DigitsEnd(s.src, s1.current + 1));
            && s1.current + 1 < s2.current <= |s.src| && s.src[s1.current] as char == '.'
            && (forall k | s.start <= k < s1.current :: IsDigit(s.src[k] as char))
            && (forall k | s1.current + 1 <= k < s2.current :: IsDigit(s.src[k] as char))
            && ScanNumber(rd, s) == Scanned(Token(Number, Slice(s.start, s2.current), s.line), Scanner(s.src, s.start, s2.current, s.line))
  {
  }

  lemma WholeNumberOk(rd: Reading, s: Scanner, r: Scan)
    requires s.start < s.current <= |s.src| && Utf8(s.src)
    requires forall k | s.start <= k < s.current :: IsDigit(s.src[k] as char)
    requires r == WholeNumber(s)
    ensures TokenOk(rd, s.src, s.start, s.line, r)
  {
    AsciiRunBounds(s.src, s.start, s.current);
    var t := Text(s.src, s.start, s.current);
    assert t[..|t|] == t;
    SliceToken(rd, s, Number, s.start, s.line, r);
  }

  lemma FractionText(src: seq<Byte>, a: nat, dot: nat, b: nat)
    requires a < dot && dot + 1 < b <= |src| && src[dot] as char == '.'
    requires forall k | a <= k < dot :: IsDigit(src[k] as char)
    requires forall k | dot + 1 <= k < b :: IsDigit(src[k] as char)
    ensures Lexer.IsNumberText(Text(src, a, b))
  {
    var t := Text(src, a, b);
    var k := dot - a;
    assert AllDigits(t[..k]);
    assert AllDigits(t[k + 1..]);
  }

  /** `string`: up to the closing quote, counting lines; an error token
      when the source ends first. */
  function ScanString(s: Scanner): (r: Scan)
    requires Begun(s) && s.src[s.start] as char == '"'
    ensures r.Scanned? && (r.token.kind == String || (r.token.kind == Error && r.token.lexeme == Message(UnterminatedString)))
  {
    var e := StringEnd(s.src, s.current, s.line);
    if e.0 == |s.src| then
      var s1 := s.(current := e.0, line := e.1);
      Scanned(ErrorToken(s1, UnterminatedString), s1)
    else
      var s1 := s.(current := e.0 + 1, line := e.1);
      QuoteBounds(s.src, s.start, e.0);
      Scanned(MakeToken(s1, String), s1)
  }

  /** Quotes are ASCII: the slice between them, quotes included, lies on
      character boundaries. */
  lemma QuoteBounds(src: seq<Byte>, a: nat, end: nat)
    requires Utf8(src) && a < end < |src| && src[a] as char == '"' && src[end] as char == '"'
    ensures CharBoundary(src, a) && CharBoundary(src, end + 1)
  {
    AsciiChar(src[a]);
    AsciiChar(src[end]);
    BoundaryAfterAscii(src, end + 1);
  }

  /** A string token is the quoted run, quotes included, with the lines it
      passes counted; a source that ends first gives "Unterminated string.". */
  lemma ScanStringOk(rd: Reading, s: Scanner)
    requires Begun(s) && s.src[s.start] as char == '"'
    ensures TokenOk(rd, s.src, s.start, s.line, ScanString(s))
  {
    if StringEnd(s.src, s.current, s.line).0 == |s.src| {
      UnterminatedOk(rd, s);
    } else {
      ClosedStringOk(rd, s);
    }
  }

  /** The lines a string passes, counted from its opening quote. */
  lemma StringLines(s: Scanner)
    requires Begun(s) && s.src[s.start] as char == '"'
    ensures var e := StringEnd(s.src, s.current, s.line);
            e.1 == s.line + Lexer.Newlines(Text(s.src, s.start, e.0))
  {
    var e := StringEnd(s.src, s.current, s.line);
    TextAppend(s.src, s.start, s.current, e.0);
    Lexer.NewlinesAppend(Text(s.src, s.start, s.current), Text(s.src, s.current, e.0));
    assert Text(s.src, s.start, s.current) == ['"'];
  }

  lemma UnterminatedOk(rd: Reading, s: Scanner)
    requires Begun(s) && s.src[s.start] as char == '"'
    requires StringEnd(s.src, s.current, s.line).0 == |s.src|
    ensures TokenOk(rd, s.src, s.start, s.line, ScanString(s))
  {
    StringLines(s);
    var s1 := s.(current := |s.src|, line := StringEnd(s.src, s.current, s.line).1);
    ErrorTokenOk(rd, s1, s.start, s.line, UnterminatedString);
    assert ScanString(s) == Scanned(ErrorToken(s1, UnterminatedString), s1);
  }

  lemma ClosedStringOk(rd: Reading, s: Scanner)
    requires Begun(s) && s.src[s.start] as char == '"'
    requires StringEnd(s.src, s.current, s.line).0 < |s.src|
    ensures TokenOk(rd, s.src, s.start, s.line, ScanString(s))
  {
    var e := StringEnd(s.src, s.current, s.line);
    ClosedStringLines(s);
    QuoteBounds(s.src, s.start, e.0);
    StringText(s.src, s.start, e.0);
    ClosedStringIs(s);
    SliceToken(rd, Scanner(s.src, s.start, e.0 + 1, e.1), String, s.start, s.line, ScanString(s));
  }

  /** A string closed at `e.0` spans the quotes and ends at the line
      `StringEnd` counted. */
  lemma ClosedStringIs(s: Scanner)
    requires Begun(s) && s.src[s.start] as char == '"'
    requires StringEnd(s.src, s.current, s.line).0 < |s.src|
    ensures var e := StringEnd(s.src, s.current, s.line);
            ScanString(s) == Scanned(Token(String, Slice(s.start, e.0 + 1), e.1), Scanner(s.src, s.start, e.0 + 1, e.1))
  {
  }

  /** The closing quote adds no line. */
  lemma ClosedStringLines(s: Scanner)
    requires Begun(s) && s.src[s.start] as char == '"'
    requires StringEnd(s.src, s.current, s.line).0 < |s.src|
    ensures var e := StringEnd(s.src, s.current, s.line);
            e.1 == s.line + Lexer.Newlines(Text(s.src, s.start, e.0 + 1))
  {
    var e := StringEnd(s.src, s.current, s.line);
    StringLines(s);
    TextAppend(s.src, s.start, e.0, e.0 + 1);
    Lexer.NewlinesAppend(Text(s.src, s.start, e.0), Text(s.src, e.0, e.0 + 1));
    assert Text(s.src, e.0, e.0 + 1) == ['"'];
  }

  /** Quotes around a run without quotes make string text. */
  lemma StringText(src: seq<Byte>, a: nat, end: nat)
    requires a < end < |src| && src[a] as char == '"' && src[end] as char == '"'
    requires forall k | a < k < end :: src[k] as char != '"'
    ensures Lexer.IsStringText(Text(src, a, end + 1))
  {
  }

  /** An error token, scanned from `from` at line `line0`. */
  lemma ErrorTokenOk(rd: Reading, s: Scanner, from: nat, line0: nat, message: string)
    requires from <= s.start < s.current <= |s.src|
    requires s.line == line0 + Lexer.Newlines(Text(s.src, from, s.current))
    requires message == UnexpectedCharacter || message == UnterminatedString
    ensures TokenOk(rd, s.src, from, line0, Scanned(ErrorToken(s, message), s))
  {
  }

  /** An operator's text is its spelling. */
  lemma SpelledShaped(rd: Reading, k: Kind, t: string)
    requires !IsWordKind(k) && t == Spelling(k) != ""
    ensures Shaped(rd, k, t)
  {
  }

  /** Only words have a kind that depends on the reading. */
  lemma ReadingFree(rd: Reading, src: seq<Byte>, from: nat, line0: nat, r: Scan)
    requires TokenOk(Intended, src, from, line0, r)
    requires r.Scanned? ==> !IsWordKind(r.token.kind)
    ensures TokenOk(rd, src, from, line0, r)
  {
  }

  /** The `match` of `scan_token` once whitespace is skipped and `start`
      set: the end of the source, then the first byte decides. */
  function ScanLexeme(rd: Reading, s: Scanner): (r: Scan)
    requires s.start == s.current <= |s.src| && Utf8(s.src)
    requires !IsAtEnd(s) ==> s.src[s.current] as char != '\n'
    ensures r.Panicked? ==> rd == AsWritten
  {
    if IsAtEnd(s) then Scanned(MakeToken(s, Eof), s)
    else
      var c := s.src[s.current] as char;
      var s1 := s.(current := s.current + 1);
      if c == '"' then ScanString(s1)
      else if IsDigit(c) then ScanNumber(rd, s1)
      else if IsAlpha(c) then ScanWord(rd, s1)
      else ScanOperator(s1)
  }

  /** The token's slice begins where the scanner was asked to start it. */
  lemma ScanLexemeStart(rd: Reading, s: Scanner)
    requires s.start == s.current <= |s.src| && Utf8(s.src)
    requires !IsAtEnd(s) ==> s.src[s.current] as char != '\n'
    ensures ScanLexeme(rd, s).Scanned? ==> ScanLexeme(rd, s).next.start == s.start
  {
  }

  /** The token begun at `start` is `Eof` exactly at the end of the source,
      and otherwise non-empty, on character boundaries and shaped for its
      kind. */
  lemma ScanLexemeOk(rd: Reading, s: Scanner)
    requires s.start == s.current <= |s.src| && Utf8(s.src)
    requires !IsAtEnd(s) ==> s.src[s.current] as char != '\n'
    ensures TokenOk(rd, s.src, s.start, s.line, ScanLexeme(rd, s))
  {
    if IsAtEnd(s) {
      assert Text(s.src, s.start, s.current) == [];
    } else {
      var c := s.src[s.current] as char;
      if c == '"' {
        StringLexemeOk(rd, s);
      } else if IsDigit(c) {
        NumberLexemeOk(rd, s);
      } else if IsAlpha(c) {
        WordLexemeOk(rd, s);
      } else {
        OperatorLexemeOk(rd, s);
      }
    }
  }

  lemma StringLexemeOk(rd: Reading, s: Scanner)
    requires s.start == s.current < |s.src| && Utf8(s.src) && s.src[s.current] as char == '"'
    ensures TokenOk(rd, s.src, s.start, s.line, ScanLexeme(rd, s))
  {
    var s1 := s.(current := s.current + 1);
    LexemeOfString(rd, s);
    ScanStringOk(rd, s1);
  }

  lemma NumberLexemeOk(rd: Reading, s: Scanner)
    requires s.start == s.current < |s.src| && Utf8(s.src) && IsDigit(s.src[s.current] as char)
    ensures TokenOk(rd, s.src, s.start, s.line, ScanLexeme(rd, s))
  {
    LexemeOfNumber(rd, s);
    ScanNumberOk(rd, s.(current := s.current + 1));
  }

  lemma WordLexemeOk(rd: Reading, s: Scanner)
    requires s.start == s.current < |s.src| && Utf8(s.src) && IsAlpha(s.src[s.current] as char)
    ensures TokenOk(rd, s.src, s.start, s.line, ScanLexeme(rd, s))
  {
    LexemeOfWord(rd, s);
    ScanWordOk(rd, s.(current := s.current + 1));
  }

  lemma OperatorLexemeOk(rd: Reading, s: Scanner)
    requires s.start == s.current < |s.src| && Utf8(s.src)
    requires var c := s.src[s.current] as char; c != '\n' && c != '"' && !IsDigit(c) && !IsAlpha(c)
    ensures TokenOk(rd, s.src, s.start, s.line, ScanLexeme(rd, s))
  {
    var s1 := s.(current := s.current + 1);
    LexemeOfOperator(rd, s);
    ScanOperatorOk(s1);
    ReadingFree(rd, s.src, s.start, s.line, ScanOperator(s1));
  }

  /** The punctuation, the comparison operators and the unexpected
      characters, the first byte consumed. */
  function ScanOperator(s: Scanner): (r: Scan)
    requires Begun(s)
    requires var c := s.src[s.start] as char; c != '"' && !IsDigit(c) && !IsAlpha(c)
    ensures r.Scanned? && !IsWordKind(r.token.kind)
  {
    var c := s.src[s.start] as char;
    if Punctuation(c).Some? then ScanPunctuation(s)
    else if IsComparisonStart(c) then ScanComparison(s)
    else Scanned(ErrorToken(s, UnexpectedCharacter), s)
  }

  lemma ScanOperatorOk(s: Scanner)
    requires Begun(s)
    requires var c := s.src[s.start] as char; c != '"' && !IsDigit(c) && !IsAlpha(c)
    ensures TokenOk(Intended, s.src, s.start, s.line, ScanOperator(s))
  {
    var c := s.src[s.start] as char;
    if Punctuation(c).Some? {
      ScanPunctuationOk(s);
    } else if IsComparisonStart(c) {
      ScanComparisonOk(s);
    } else {
      assert Text(s.src, s.start, s.current) == [c];
      ErrorTokenOk(Intended, s, s.start, s.line, UnexpectedCharacter);
    }
  }

  function ScanPunctuation(s: Scanner): (r: Scan)
    requires Begun(s) && Punctuation(s.src[s.start] as char).Some?
    ensures r.Scanned? && r.token.kind == Punctuation(s.src[s.start] as char).value
  {
    var c := s.src[s.start] as char;
    AsciiChar(s.src[s.start]);
    BoundaryAfterAscii(s.src, s.current);
    Scanned(MakeToken(s, Punctuation(c).value), s)
  }

  lemma ScanPunctuationOk(s: Scanner)
    requires Begun(s) && Punctuation(s.src[s.start] as char).Some?
    ensures TokenOk(Intended, s.src, s.start, s.line, ScanPunctuation(s))
  {
    var c := s.src[s.start] as char;
    assert Text(s.src, s.start, s.current) == [c];
    AsciiChar(s.src[s.start]);
    BoundaryAfterAscii(s.src, s.current);
    SpelledShaped(Intended, Punctuation(c).value, [c]);
    SliceToken(Intended, s, Punctuation(c).value, s.start, s.line, ScanPunctuation(s));
  }

  function ScanComparison(s: Scanner): (r: Scan)
    requires Begun(s) && IsComparisonStart(s.src[s.start] as char)
    ensures r.Scanned? && !IsWordKind(r.token.kind)
  {
    var c := s.src[s.start] as char;
    var (m, s2) := Matches(s, '=');
    AsciiChar(s.src[s.start]);
    AsciiChar(s.src[s2.current - 1]);
    BoundaryAfterAscii(s.src, s2.current);
    Scanned(MakeToken(s2, Comparison(c, m)), s2)
  }

  lemma ScanComparisonOk(s: Scanner)
    requires Begun(s) && IsComparisonStart(s.src[s.start] as char)
    ensures TokenOk(Intended, s.src, s.start, s.line, ScanComparison(s))
  {
    var c := s.src[s.start] as char;
    var e := Matches(s, '=');
    ComparisonText(s);
    SpelledShaped(Intended, Comparison(c, e.0), Text(s.src, s.start, e.1.current));
    SliceToken(Intended, e.1, Comparison(c, e.0), s.start, s.line, ScanComparison(s));
  }

  /** The text of a comparison operator, one byte or two, is ASCII and is
      its spelling. */
  lemma ComparisonText(s: Scanner)
    requires Begun(s) && IsComparisonStart(s.src[s.start] as char)
    ensures var e := Matches(s, '=');
            && s.start < e.1.current <= |s.src| && CharBoundary(s.src, s.start) && CharBoundary(s.src, e.1.current)
            && Text(s.src, s.start, e.1.current) == Spelling(Comparison(s.src[s.start] as char, e.0))
            && Lexer.Newlines(Text(s.src, s.start, e.1.current)) == 0
  {
    var c := s.src[s.start] as char;
    var e := Matches(s, '=');
    AsciiChar(s.src[s.start]);
    if e.0 {
      assert Text(s.src, s.start, e.1.current) == [c, '='];
      AsciiChar(s.src[s.current]);
    } else {
      assert Text(s.src, s.start, e.1.current) == [c];
    }
    BoundaryAfterAscii(s.src, e.1.current);
    NoNewlinesIn(s.src, s.start, e.1.current);
  }

  /** `scan_token`: skips whitespace and comments, then scans one token.
      In the intended reading it never panics. */
  function ScanToken(rd: Reading, s: Scanner): (r: Scan)
    requires s.current <= |s.src| && Utf8(s.src)
    ensures r.Panicked? ==> rd == AsWritten
  {
    match SkipWhitespace(rd, s)
    case Err(p) => Panicked(p)
    case Ok(s1) => ScanLexeme(rd, s1.(start := s1.current))
  }

  /** A scanned token moved the scanner forward over whitespace and line
      comments, which are all that lie before its start, and then over its
      own text, counting the newlines passed; it is `Eof` exactly at
      the end, and otherwise a non-empty token on character boundaries
      shaped for its kind. */
  lemma ScanTokenOk(rd: Reading, s: Scanner)
    requires s.current <= |s.src| && Utf8(s.src)
    ensures TokenOk(rd, s.src, s.current, s.line, ScanToken(rd, s))
    ensures ScanToken(rd, s).Scanned? ==> Blank(s.src, s.current, ScanToken(rd, s).next.start)
  {
    ScanTokenAfterBlank(rd, s);
    match SkipWhitespace(rd, s)
    case Err(_) =>
    case Ok(s1) =>
      var s2 := s1.(start := s1.current);
      ScanLexemeOk(rd, s2);
      var r := ScanLexeme(rd, s2);
      if r.Scanned? {
        TextAppend(s.src, s.current, s1.current, r.next.current);
        Lexer.NewlinesAppend(Text(s.src, s.current, s1.current), Text(s.src, s1.current, r.next.current));
      }
  }

  /** What lies between where `scan_token` was called and where its token
      starts is blanks and line comments. */
  lemma ScanTokenAfterBlank(rd: Reading, s: Scanner)
    requires s.current <= |s.src| && Utf8(s.src)
    ensures ScanToken(rd, s).Scanned? ==> Blank(s.src, s.current, ScanToken(rd, s).next.start)
  {
    match SkipWhitespace(rd, s)
    case Err(_) =>
    case Ok(s1) =>
      ScanLexemeStart(rd, s1.(start := s1.current));
      SkipWhitespaceBlank(rd, s);
  }

  // ---- the token stream -----------------------------------------------------------

  /** A token stream scanned from position `from` at line `line0`: it ends
      with its only `Eof`, which is the empty slice at the end of the
      source, its lines never go down from `line0`, and its slices lie after
      `from`, in source order, without overlapping. */
  predicate Ordered(src: seq<Byte>, from: nat, line0: nat, ts: seq<Token>) {
    && |ts| > 0 && ts[|ts| - 1].kind == Eof && ts[|ts| - 1].lexeme == Slice(|src|, |src|)
    && (forall i | 0 <= i < |ts| - 1 :: ts[i].kind != Eof)
    && (forall i | 0 <= i < |ts| :: line0 <= ts[i].line)
    && (forall i, j | 0 <= i < j < |ts| :: ts[i].line <= ts[j].line)
    && (forall i | 0 <= i < |ts| && ts[i].lexeme.Slice? :: from <= ts[i].lexeme.from <= ts[i].lexeme.to <= |src|)
    && (forall i, j | 0 <= i < j < |ts| && ts[i].lexeme.Slice? && ts[j].lexeme.Slice? ::
          ts[i].lexeme.to <= ts[j].lexeme.from)
  }

  /** Only blanks and line comments come before the first slice of a stream
      and between two slices that follow each other in it. */
  predicate Gapless(src: seq<Byte>, from: nat, ts: seq<Token>) {
    && (|ts| > 0 && ts[0].lexeme.Slice? && from <= ts[0].lexeme.from <= |src| ==>
          Blank(src, from, ts[0].lexeme.from))
    && (forall i | 0 <= i < |ts| - 1 && ts[i].lexeme.Slice? && ts[i + 1].lexeme.Slice?
                   && ts[i].lexeme.to <= ts[i + 1].lexeme.from <= |src| ::
          Blank(src, ts[i].lexeme.to, ts[i + 1].lexeme.from))
  }

  /** A well-formed stream: ordered, and with nothing but blanks and line
      comments between its slices; since the `Eof` slice sits at the end of
      the source, that holds of the tail as well. */
  predicate StreamOk(src: seq<Byte>, from: nat, line0: nat, ts: seq<Token>) {
    Ordered(src, from, line0, ts) && Gapless(src, from, ts)
  }

  lemma OrderedCons(src: seq<Byte>, from: nat, line0: nat, t: Token, upto: nat, ts: seq<Token>)
    requires t.kind != Eof && from <= upto <= |src| && line0 <= t.line
    requires t.lexeme.Slice? ==> from <= t.lexeme.from <= t.lexeme.to <= upto
    requires Ordered(src, upto, t.line, ts)
    ensures Ordered(src, from, line0, [t] + ts)
  {
    var all := [t] + ts;
    assert forall i | 1 <= i < |all| :: all[i] == ts[i - 1];
  }

  lemma GaplessCons(src: seq<Byte>, from: nat, t: Token, upto: nat, ts: seq<Token>)
    requires t.lexeme.Slice? ==> from <= t.lexeme.from <= t.lexeme.to == upto <= |src| && Blank(src, from, t.lexeme.from)
    requires Gapless(src, upto, ts)
    ensures Gapless(src, from, [t] + ts)
  {
    var all := [t] + ts;
    assert forall i | 1 <= i < |all| :: all[i] == ts[i - 1];
  }

  lemma StreamCons(src: seq<Byte>, from: nat, line0: nat, t: Token, upto: nat, ts: seq<Token>)
    requires t.kind != Eof && from <= upto <= |src| && line0 <= t.line
    requires t.lexeme.Slice? ==> from <= t.lexeme.from <= t.lexeme.to == upto && Blank(src, from, t.lexeme.from)
    requires StreamOk(src, upto, t.line, ts)
    ensures StreamOk(src, from, line0, [t] + ts)
  {
    OrderedCons(src, from, line0, t, upto, ts);
    GaplessCons(src, from, t, upto, ts);
  }

  /** The loop of `compile`: tokens up to and including the first `Eof`.
      Each call moves forward unless it returns `Eof`, so the loop ends. */
  function ScanFrom(rd: Reading, s: Scanner): (r: Result<seq<Token>, Panic>)
    requires s.current <= |s.src| && Utf8(s.src)
    ensures r.Err? ==> rd == AsWritten
    ensures r.Ok? ==> StreamOk(s.src, s.current, s.line, r.value)
    decreases |s.src| - s.current
  {
    match ScanToken(rd, s)
    case Panicked(p) => Err(p)
    case Scanned(t, n) =>
      ScanTokenOk(rd, s);
      TokenStep(rd, s.src, s.current, s.line, ScanToken(rd, s));
      if t.kind == Eof then
        StreamLast(s.src, s.current, s.line, t);
        Ok([t])
      else
        match ScanFrom(rd, n)
        case Err(p) => Err(p)
        case Ok(ts) =>
          StreamCons(s.src, s.current, s.line, t, n.current, ts);
          Ok([t] + ts)
  }

  /** What the stream needs of a token that is not the last: the scanner
      moved past where it began, the line did not go down, and the slice
      lies in between. */
  lemma TokenStep(rd: Reading, src: seq<Byte>, from: nat, line0: nat, r: Scan)
    requires r.Scanned? && TokenOk(rd, src, from, line0, r)
    ensures r.next.src == src && from <= r.next.current <= |src| && line0 <= r.token.line == r.next.line
    ensures r.token.kind != Eof ==> from < r.next.current
    ensures r.token.lexeme.Slice? ==> from <= r.token.lexeme.from == r.next.start <= r.token.lexeme.to == r.next.current
  {
  }

  lemma StreamLast(src: seq<Byte>, from: nat, line0: nat, t: Token)
    requires t.kind == Eof && line0 <= t.line && t.lexeme == Slice(|src|, |src|)
    requires t.lexeme.Slice? ==> from <= t.lexeme.from <= t.lexeme.to <= |src| && Blank(src, from, t.lexeme.from)
    ensures StreamOk(src, from, line0, [t])
  {
  }

  /** All the tokens of a source, from a fresh scanner. */
  function ScanAll(rd: Reading, src: seq<Byte>): (r: Result<seq<Token>, Panic>)
    requires Utf8(src)
    ensures r.Err? ==> rd == AsWritten
    ensures r.Ok? ==> StreamOk(src, 0, 1, r.value)
  {
    ScanFrom(rd, New(src))
  }

  // ---- where the code departs from its intent -----------------------------------

  /** The source `x and`. */
  const XAnd: seq<Byte> := [0x78, 0x20, 0x61, 0x6E, 0x64]

  /** As written, `and` after the first token is not recognised: the
      comparison looks at bytes 1 to 3 of the source, ` a`, instead of the
      word's own `nd`. */
  lemma KeywordAfterStart()
    ensures ScanToken(AsWritten, Scanner(XAnd, 0, 1, 1)) == Scanned(Token(Identifier, Slice(2, 5), 1), Scanner(XAnd, 2, 5, 1))
  {
    XAndKind();
    XAndWord(AsWritten);
  }

  /** The intended scanner reads the same `and` as the keyword. */
  lemma KeywordAfterStartIntended()
    ensures ScanToken(Intended, Scanner(XAnd, 0, 1, 1)) == Scanned(Token(And, Slice(2, 5), 1), Scanner(XAnd, 2, 5, 1))
  {
    XAndKind();
    XAndWord(Intended);
  }

  /** The trie on the word of `x and`: as written it compares ` a` with
      `nd`... */
  lemma XAndKind()
    ensures WordKind(AsWritten, Scanner(XAnd, 2, 5, 1)) == Ok(Identifier)
    ensures WordKind(Intended, Scanner(XAnd, 2, 5, 1)) == Ok(And)
  {
    XAndKindAsWritten();
    XAndKindIntended();
  }

  lemma XAndKindAsWritten()
    ensures WordKind(AsWritten, Scanner(XAnd, 2, 5, 1)) == Ok(Identifier)
  {
    var w := Scanner(XAnd, 2, 5, 1);
    XAndInWord();
    TrieOfA(AsWritten, w);
    CheckKeywordFits(AsWritten, w, 1, "nd", And);
    assert Text(XAnd, 1, 3) != "nd" by { assert Text(XAnd, 1, 3)[0] == ' '; }
  }

  /** ...and as intended `nd` with `nd`. */
  lemma XAndKindIntended()
    ensures WordKind(Intended, Scanner(XAnd, 2, 5, 1)) == Ok(And)
  {
    var w := Scanner(XAnd, 2, 5, 1);
    XAndInWord();
    TrieOfA(Intended, w);
    CheckKeywordFits(Intended, w, 1, "nd", And);
    assert Text(XAnd, 3, 5) == "nd";
  }

  lemma XAndInWord()
    ensures Utf8(XAnd) && InWord(Scanner(XAnd, 2, 5, 1))
  {
    XAndWordEnd();
    WordScanned(Intended, Scanner(XAnd, 2, 3, 1));
  }

  /** `check_keyword` on a word of the keyword's length compares the
      slice: from the word's own `start` as intended, from the absolute
      `start` as written, after checking that slice's ends. */
  lemma CheckKeywordFits(rd: Reading, s: Scanner, start: nat, rest: string, kind: Kind)
    requires InWord(s) && 1 <= start && |rest| > 0 && s.current - s.start == |rest| + start
    ensures rd == Intended ==>
              CheckKeyword(rd, s, start, rest, kind)
              == Ok(if Text(s.src, s.start + start, s.current) == rest then kind else Identifier)
    ensures rd == AsWritten ==>
              CheckKeyword(rd, s, start, rest, kind)
              == if !CharBoundary(s.src, start) || !CharBoundary(s.src, start + |rest|) then Err(NotCharBoundary)
                 else Ok(if Text(s.src, start, start + |rest|) == rest then kind else Identifier)
  {
    if rd == Intended {
      CheckKeywordFitsIntended(s, start, rest, kind);
    } else {
      CheckKeywordFitsAsWritten(s, start, rest, kind);
    }
  }

  lemma CheckKeywordFitsIntended(s: Scanner, start: nat, rest: string, kind: Kind)
    requires InWord(s) && 1 <= start && |rest| > 0 && s.current - s.start == |rest| + start
    ensures CheckKeyword(Intended, s, start, rest, kind)
            == Ok(if Text(s.src, s.start + start, s.current) == rest then kind else Identifier)
  {
  }

  lemma CheckKeywordFitsAsWritten(s: Scanner, start: nat, rest: string, kind: Kind)
    requires InWord(s) && 1 <= start && |rest| > 0 && s.current - s.start == |rest| + start
    ensures CheckKeyword(AsWritten, s, start, rest, kind)
            == if !CharBoundary(s.src, start) || !CharBoundary(s.src, start + |rest|) then Err(NotCharBoundary)
               else Ok(if Text(s.src, start, start + |rest|) == rest then kind else Identifier)
  {
  }

  /** The trie's branch for `a`. */
  lemma TrieOfA(rd: Reading, s: Scanner)
    requires InWord(s) && s.src[s.start] as char == 'a'
    ensures WordKind(rd, s) == CheckKeyword(rd, s, 1, "nd", And)
  {
  }

  /** Scanning `x and` after `x`: the space is skipped and the word `and`
      is read; only its kind is left to the trie. */
  lemma XAndWord(rd: Reading)
    ensures var w := Scanner(XAnd, 2, 5, 1);
            WordKind(rd, w).Ok? ==>
              ScanToken(rd, Scanner(XAnd, 0, 1, 1)) == Scanned(MakeToken(w, WordKind(rd, w).value), w)
  {
    XAndSkip(rd);
    TokenAfterSkip(rd, Scanner(XAnd, 0, 1, 1), Scanner(XAnd, 0, 2, 1));
    XAndLexeme(rd);
  }

  /** The token begun at `a` is the word `and`. */
  lemma XAndLexeme(rd: Reading)
    ensures var w := Scanner(XAnd, 2, 5, 1);
            WordKind(rd, w).Ok? ==>
              ScanLexeme(rd, Scanner(XAnd, 2, 2, 1)) == Scanned(MakeToken(w, WordKind(rd, w).value), w)
  {
    LexemeOfWord(rd, Scanner(XAnd, 2, 2, 1));
    XAndWordEnd();
    WordScanned(rd, Scanner(XAnd, 2, 3, 1));
  }

  /** The word token runs to the end of the word and takes the kind the
      trie gives it. */
  lemma WordScanned(rd: Reading, s: Scanner)
    requires Begun(s) && IsAlpha(s.src[s.start] as char)
    ensures var w := s.(current := WordEnd(s.src, s.current));
            && InWord(w) && CharBoundary(w.src, w.start) && CharBoundary(w.src, w.current)
            && ScanWord(rd, s) == match WordKind(rd, w) case Err(p) => Panicked(p) case Ok(k) => Scanned(MakeToken(w, k), w)
  {
    var w := s.(current := WordEnd(s.src, s.current));
    PlainRun(w.src, w.start, w.current);
    BoundaryAfterAscii(w.src, w.current);
  }

  /** Once the whitespace is skipped, the token is the lexeme that starts
      where skipping stopped. */
  lemma TokenAfterSkip(rd: Reading, s: Scanner, s1: Scanner)
    requires s.current <= |s.src| && Utf8(s.src) && SkipWhitespace(rd, s) == Ok(s1)
    ensures ScanToken(rd, s) == ScanLexeme(rd, s1.(start := s1.current))
  {
  }

  /** A lexeme starting with a letter is the word that letter begins.
      Stated for any scanner so that the concrete cases above need not
      unfold the other branches of the lexeme. */
  lemma LexemeOfWord(rd: Reading, s: Scanner)
    requires s.start == s.current < |s.src| && Utf8(s.src) && IsAlpha(s.src[s.current] as char)
    ensures ScanLexeme(rd, s) == ScanWord(rd, s.(current := s.current + 1))
  {
    var c := s.src[s.current] as char;
    assert !IsAtEnd(s) && c != '"' && !IsDigit(c);
  }

  /** A lexeme starting with a quote is a string. */
  lemma LexemeOfString(rd: Reading, s: Scanner)
    requires s.start == s.current < |s.src| && Utf8(s.src) && s.src[s.current] as char == '"'
    ensures ScanLexeme(rd, s) == ScanString(s.(current := s.current + 1))
  {
    assert !IsAtEnd(s);
  }

  /** A lexeme starting with a digit is a number. */
  lemma LexemeOfNumber(rd: Reading, s: Scanner)
    requires s.start == s.current < |s.src| && Utf8(s.src) && IsDigit(s.src[s.current] as char)
    ensures ScanLexeme(rd, s) == ScanNumber(rd, s.(current := s.current + 1))
  {
    var c := s.src[s.current] as char;
    assert !IsAtEnd(s) && c != '"';
  }

  /** A lexeme starting with anything but a quote, a digit or a letter
      is an operator, a punctuation mark or an unexpected character. */
  lemma LexemeOfOperator(rd: Reading, s: Scanner)
    requires s.start == s.current < |s.src| && Utf8(s.src)
    requires var c := s.src[s.current] as char; c != '"' && !IsDigit(c) && !IsAlpha(c) && c != '\n'
    ensures ScanLexeme(rd, s) == ScanOperator(s.(current := s.current + 1))
  {
    assert !IsAtEnd(s);
  }

  /** The space after `x` is skipped, and scanning stops at `a`. */
  lemma XAndSkip(rd: Reading)
    ensures SkipWhitespace(rd, Scanner(XAnd, 0, 1, 1)) == Ok(Scanner(XAnd, 0, 2, 1))
  {
    var s0 := Scanner(XAnd, 0, 1, 1);
    var s1 := Scanner(XAnd, 0, 2, 1);
    assert Peek(s0) == ' ';
    assert Peek(s1) == 'a';
    assert SkipWhitespace(rd, s1) == Ok(s1);
  }

  /** The word begun at `a` runs to the end of `x and`. */
  lemma XAndWordEnd()
    ensures WordEnd(XAnd, 3) == 5 && Utf8(XAnd)
  {
    assert WordEnd(XAnd, 5) == 5;
    assert WordEnd(XAnd, 4) == 5;
  }

  /** The source `é and`, its first character two bytes long. */
  const AccentAnd: seq<Byte> := [0xC3, 0xA9, 0x20, 0x61, 0x6E, 0x64]

  /** As written, the same comparison slices the source from byte 1, inside
      the first character, and panics. */
  lemma KeywordSliceSplitsCharacter()
    ensures ScanToken(AsWritten, Scanner(AccentAnd, 1, 2, 1)) == Panicked(NotCharBoundary)
  {
    AccentAndWord(AsWritten);
    AccentAndKindAsWritten();
  }

  /** The trie as written slices `é and` from byte 1 and panics. */
  lemma AccentAndKindAsWritten()
    ensures WordKind(AsWritten, Scanner(AccentAnd, 3, 6, 1)) == Err(NotCharBoundary)
  {
    var w := Scanner(AccentAnd, 3, 6, 1);
    AccentAndInWord();
    TrieOfA(AsWritten, w);
    CheckKeywordFits(AsWritten, w, 1, "nd", And);
    assert !CharBoundary(AccentAnd, 1);
  }

  /** The intended scanner reads the same `and` as the keyword. */
  lemma KeywordSliceIntended()
    ensures ScanToken(Intended, Scanner(AccentAnd, 1, 2, 1)) == Scanned(Token(And, Slice(3, 6), 1), Scanner(AccentAnd, 3, 6, 1))
  {
    AccentAndWord(Intended);
    AccentAndKind();
  }

  /** The intended trie classifies the word of `é and` as `and`. */
  lemma AccentAndKind()
    ensures WordKind(Intended, Scanner(AccentAnd, 3, 6, 1)) == Ok(And)
  {
    var w := Scanner(AccentAnd, 3, 6, 1);
    AccentAndInWord();
    TrieOfA(Intended, w);
    CheckKeywordFits(Intended, w, 1, "nd", And);
    assert Text(AccentAnd, 4, 6) == "nd";
  }

  lemma AccentAndInWord()
    ensures Utf8(AccentAnd) && InWord(Scanner(AccentAnd, 3, 6, 1))
  {
    AccentAndWordEnd();
    WordScanned(Intended, Scanner(AccentAnd, 3, 4, 1));
  }

  /** Scanning `é and` after `é`: the space is skipped and the word `and`
      is read; what happens next is up to the trie. */
  lemma AccentAndWord(rd: Reading)
    ensures var w := Scanner(AccentAnd, 3, 6, 1);
            && Utf8(AccentAnd) && InWord(w)
            && ScanToken(rd, Scanner(AccentAnd, 1, 2, 1))
               == match WordKind(rd, w) case Err(p) => Panicked(p) case Ok(k) => Scanned(MakeToken(w, k), w)
  {
    AccentAndSkip(rd);
    TokenAfterSkip(rd, Scanner(AccentAnd, 1, 2, 1), Scanner(AccentAnd, 1, 3, 1));
    LexemeOfWord(rd, Scanner(AccentAnd, 3, 3, 1));
    AccentAndWordEnd();
    WordScanned(rd, Scanner(AccentAnd, 3, 4, 1));
  }

  /** The space after `é` is skipped, and scanning stops at `a`. */
  lemma AccentAndSkip(rd: Reading)
    ensures SkipWhitespace(rd, Scanner(AccentAnd, 1, 2, 1)) == Ok(Scanner(AccentAnd, 1, 3, 1))
  {
    var s0 := Scanner(AccentAnd, 1, 2, 1);
    var s1 := Scanner(AccentAnd, 1, 3, 1);
    assert Peek(s0) == ' ';
    assert Peek(s1) == 'a';
    assert SkipWhitespace(rd, s1) == Ok(s1);
  }

  /** The word begun at `a` runs to the end of `é and`, and the source is
      valid UTF-8. */
  lemma AccentAndWordEnd()
    ensures WordEnd(AccentAnd, 4) == 6 && Utf8(AccentAnd)
  {
    assert WordEnd(AccentAnd, 6) == 6;
    assert WordEnd(AccentAnd, 5) == 6;
  }

  /** From a fresh scanner: as written, `é and` yields an error token for
      each byte of `é` and then panics on `and`, so the whole scan fails;
      the intended scan of the same source succeeds (its `and` is the
      keyword, by `KeywordSliceIntended`). */
  lemma AccentAndFromStart()
    ensures ScanAll(AsWritten, AccentAnd) == Err(NotCharBoundary)
    ensures ScanAll(Intended, AccentAnd).Ok?
  {
    AccentAndFirstAsWritten(AccentAnd);
  }

  // The loop on `é and`, one turn per lemma, last turn first. The source
  // is a parameter so that the loop is not unfolded on a literal.

  lemma AccentAndThirdAsWritten(src: seq<Byte>)
    requires src == AccentAnd
    ensures Utf8(src) && ScanFrom(AsWritten, Scanner(src, 1, 2, 1)) == Err(NotCharBoundary)
  {
    KeywordSliceSplitsCharacter();
    AccentAndWordEnd();
    ScanFromPanics(AsWritten, Scanner(src, 1, 2, 1), NotCharBoundary);
  }

  lemma AccentAndSecondAsWritten(src: seq<Byte>)
    requires src == AccentAnd
    ensures Utf8(src) && ScanFrom(AsWritten, Scanner(src, 0, 1, 1)) == Err(NotCharBoundary)
  {
    AccentAndThirdAsWritten(src);
    AccentByteAt(AsWritten, src, 1);
    ScanFromErr(AsWritten, Scanner(src, 0, 1, 1), Token(Error, Message(UnexpectedCharacter), 1),
                Scanner(src, 1, 2, 1), NotCharBoundary);
  }

  lemma AccentAndFirstAsWritten(src: seq<Byte>)
    requires src == AccentAnd
    ensures Utf8(src) && ScanFrom(AsWritten, Scanner(src, 0, 0, 1)) == Err(NotCharBoundary)
  {
    AccentAndSecondAsWritten(src);
    AccentByteAt(AsWritten, src, 0);
    ScanFromErr(AsWritten, Scanner(src, 0, 0, 1), Token(Error, Message(UnexpectedCharacter), 1),
                Scanner(src, 0, 1, 1), NotCharBoundary);
  }

  /** `AccentByte` for a source given as a parameter. */
  lemma AccentByteAt(rd: Reading, src: seq<Byte>, i: nat)
    requires src == AccentAnd && i < 2
    ensures Utf8(src)
    ensures ScanToken(rd, Scanner(src, 0, i, 1))
            == Scanned(Token(Error, Message(UnexpectedCharacter), 1), Scanner(src, i, i + 1, 1))
  {
    AccentByte(rd, i);
  }

  /** A panic later in the compile loop ends it. */
  lemma ScanFromErr(rd: Reading, s: Scanner, t: Token, n: Scanner, p: Panic)
    requires s.current <= |s.src| && Utf8(s.src) && n.src == s.src && n.current <= |s.src|
    requires ScanToken(rd, s) == Scanned(t, n) && t.kind != Eof && ScanFrom(rd, n) == Err(p)
    ensures ScanFrom(rd, s) == Err(p)
  {
  }

  /** A panic ends the compile loop. */
  lemma ScanFromPanics(rd: Reading, s: Scanner, p: Panic)
    requires s.current <= |s.src| && Utf8(s.src) && ScanToken(rd, s) == Panicked(p)
    ensures ScanFrom(rd, s) == Err(p)
  {
  }

  /** Each byte of `é`, scanned on its own, is an unexpected character. */
  lemma AccentByte(rd: Reading, i: nat)
    requires i < 2
    ensures Utf8(AccentAnd)
    ensures ScanToken(rd, Scanner(AccentAnd, 0, i, 1))
            == Scanned(Token(Error, Message(UnexpectedCharacter), 1), Scanner(AccentAnd, i, i + 1, 1))
  {
    AccentAndWordEnd();
    var s := Scanner(AccentAnd, 0, i, 1);
    var c := AccentAnd[i] as char;
    assert Peek(s) == c && c !in {' ', '\r', '\t', '\n', '/'};
    assert SkipWhitespace(rd, s) == Ok(s);
    TokenAfterSkip(rd, s, s);
    LexemeOfOperator(rd, s.(start := i));
    assert Punctuation(c).None? && !IsComparisonStart(c);
  }

  /** The source `1.`. */
  const OneDot: seq<Byte> := [0x31, 0x2E]

  /** As written, a number followed by a dot that ends the source panics:
      `peek_next` reads past the end. The intended scanner yields the
      number `1`. */
  lemma TrailingDotPanics()
    ensures ScanToken(AsWritten, New(OneDot)) == Panicked(IndexOutOfBounds)
    ensures ScanToken(Intended, New(OneDot)) == Scanned(Token(Number, Slice(0, 1), 1), Scanner(OneDot, 0, 1, 1))
  {
    assert DigitsEnd(OneDot, 1) == 1;
  }

  /** The source `/`. */
  const LoneSlash: seq<Byte> := [0x2F]

  /** As written, a slash that ends the source panics while deciding
      whether it starts a comment; the intended scanner yields `Slash`. */
  lemma TrailingSlashPanics()
    ensures ScanToken(AsWritten, New(LoneSlash)) == Panicked(IndexOutOfBounds)
    ensures ScanToken(Intended, New(LoneSlash)) == Scanned(Token(Slash, Slice(0, 1), 1), Scanner(LoneSlash, 0, 1, 1))
  {
    LoneSlashAsWritten();
    LoneSlashIntended();
  }

  lemma LoneSlashAsWritten()
    ensures ScanToken(AsWritten, New(LoneSlash)) == Panicked(IndexOutOfBounds)
  {
    var s := New(LoneSlash);
    assert Peek(s) == '/';
    assert PeekNext(AsWritten, s) == Err(IndexOutOfBounds);
    assert SkipWhitespace(AsWritten, s) == Err(IndexOutOfBounds);
  }

  lemma LoneSlashIntended()
    ensures ScanToken(Intended, New(LoneSlash)) == Scanned(Token(Slash, Slice(0, 1), 1), Scanner(LoneSlash, 0, 1, 1))
  {
    var s := New(LoneSlash);
    assert Utf8(LoneSlash) by { assert Continues(LoneSlash, 0); }
    assert Peek(s) == '/';
    assert PeekNext(Intended, s) == Ok('\0');
    assert SkipWhitespace(Intended, s) == Ok(s);
    TokenAfterSkip(Intended, s, s);
    var s1 := Scanner(LoneSlash, 0, 1, 1);
    LexemeOfOperator(Intended, s);
    assert Punctuation(LoneSlash[0] as char) == Some(Slash);
    assert ScanPunctuation(s1) == Scanned(Token(Slash, Slice(0, 1), 1), s1);
  }
}
