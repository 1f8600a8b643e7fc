/** The TypeScript scanner: turns source text into tokens, one `scanToken`
    step at a time, and ends the list with an end-of-file token. Positions
    are indices into the text; lines count from 0. */
module Lexer {
  import opened Common
  import opened Tokens

  predicate IsAlpha(c: char) {
    'a' <= c <= 'z' || 'A' <= c <= 'Z' || c == '_'
  }

  predicate IsAlphaNumeric(c: char) {
    IsDigit(c) || IsAlpha(c)
  }

  /** The fixed text of every token kind that has one; the empty string for
      identifiers, literals and end of file. */
  function Spelling(k: TokenType): string {
    match k
    case LeftParen => "(" case RightParen => ")"
    case LeftBrace => "{" case RightBrace => "}"
    case Comma => "," case Dot => "." case Minus => "-" case Plus => "+"
    case Semicolon => ";" case Slash => "/" case Star => "*"
    case Question => "?" case Colon => ":" case Percent => "%"
    case Bang => "!" case BangEqual => "!="
    case Equal => "=" case EqualEqual => "=="
    case Greater => ">" case GreaterEqual => ">="
    case Less => "<" case LessEqual => "<="
    case Identifier => "" case StringLit => "" case NumberLit => ""
    case KwAnd => "and" case KwClass => "class" case KwElse => "else"
    case KwFalse => "false" case KwFun => "fun" case KwFor => "for"
    case KwIf => "if" case KwNil => "nil" case KwOr => "or"
    case KwPrint => "print" case KwReturn => "return" case KwSuper => "super"
    case KwThis => "this" case KwTrue => "true" case KwVar => "var"
    case KwWhile => "while" case KwContinue => "continue" case KwBreak => "break"
    case KwDiv => "div"
    case Eof => ""
  }

  predicate IsKeywordKind(k: TokenType) {
    k in {KwAnd, KwClass, KwElse, KwFalse, KwFun, KwFor, KwIf, KwNil, KwOr,
          KwPrint, KwReturn, KwSuper, KwThis, KwTrue, KwVar, KwWhile,
          KwContinue, KwBreak, KwDiv}
  }

  /** The keyword kinds, in the order the scanner's constructor enters them
      into its keyword table. */
  const KeywordKinds: seq<TokenType> :=
    [KwAnd, KwClass, KwElse, KwFalse, KwFor, KwFun, KwIf, KwNil, KwOr, KwPrint,
     KwReturn, KwSuper, KwThis, KwTrue, KwVar, KwWhile, KwContinue, KwBreak, KwDiv]

  /** The first of `ks` spelled `text`, if any. */
  function Lookup(text: string, ks: seq<TokenType>): (k: Option<TokenType>)
    ensures k.Some? ==> k.value in ks && Spelling(k.value) == text
    ensures k.None? ==> forall i | 0 <= i < |ks| :: Spelling(ks[i]) != text
  {
    if |ks| == 0 then None
    else if Spelling(ks[0]) == text then Some(ks[0])
    else Lookup(text, ks[1..])
  }

  /** The scanner's keyword table: a word it accepts is the spelling of the
      keyword kind it yields. */
  function Keyword(text: string): (k: Option<TokenType>)
    ensures k.Some? ==> IsKeywordKind(k.value) && text == Spelling(k.value)
  {
    Lookup(text, KeywordKinds)
  }

  /** Every keyword kind, `continue`, `break` and `div` included, is in the
      keyword table under its own spelling. */
  lemma KeywordOfSpelling(k: TokenType)
    requires IsKeywordKind(k)
    ensures Keyword(Spelling(k)) == Some(k)
  {
    KeywordListed(k);
    LookupFinds(Spelling(k), KeywordKinds, k);
    var r := Keyword(Spelling(k));
    SpellingDeterminesKeyword(r.value);
    SpellingDeterminesKeyword(k);
  }

  lemma KeywordListed(k: TokenType)
    requires IsKeywordKind(k)
    ensures k in KeywordKinds
  {
  }

  /** A lookup succeeds when some candidate has the spelling. */
  lemma LookupFinds(text: string, ks: seq<TokenType>, k: TokenType)
    requires k in ks && Spelling(k) == text
    ensures Lookup(text, ks).Some?
  {
  }

  /** Every keyword is at least two letters long. */
  lemma KeywordLength(text: string)
    ensures Keyword(text).Some? ==> |text| >= 2
  {
    if Keyword(text).Some? {
      SpellingDeterminesKeyword(Keyword(text).value);
    }
  }

  /** A keyword's kind, read back from the length and first letters of its
      spelling. */
  function KeywordOfShape(w: string): TokenType
    requires |w| >= 2
  {
    match |w|
    case 2 => if w[0] == 'i' then KwIf else KwOr
    case 3 =>
      if w[0] == 'a' then KwAnd else if w[0] == 'n' then KwNil
      else if w[0] == 'v' then KwVar else if w[0] == 'd' then KwDiv
      else if w[1] == 'o' then KwFor else KwFun
    case 4 => if w[0] == 'e' then KwElse else if w[1] == 'h' then KwThis else KwTrue
    case 5 =>
      if w[0] == 'c' then KwClass else if w[0] == 'f' then KwFalse
      else if w[0] == 'p' then KwPrint else if w[0] == 's' then KwSuper
      else if w[0] == 'w' then KwWhile else KwBreak
    case 6 => KwReturn
    case _ => KwContinue
  }

  /** Distinct keywords are spelled differently. */
  lemma SpellingDeterminesKeyword(k: TokenType)
    requires IsKeywordKind(k)
    ensures |Spelling(k)| >= 2 && KeywordOfShape(Spelling(k)) == k
  {
    match k
    case KwIf => case KwOr => case KwAnd => case KwFor => case KwFun =>
    case KwNil => case KwVar => case KwDiv => case KwElse => case KwThis =>
    case KwTrue => case KwClass => case KwFalse => case KwPrint => case KwSuper =>
    case KwWhile => case KwBreak => case KwReturn => case KwContinue =>
  }

  /** Single-character tokens that never extend to two characters. */
  function Single(c: char): (k: Option<TokenType>)
    ensures k.Some? ==> Spelling(k.value) == [c]
  {
    match c
    case '?' => Some(Question) case ':' => Some(Colon)
    case '(' => Some(LeftParen) case ')' => Some(RightParen)
    case '{' => Some(LeftBrace) case '}' => Some(RightBrace)
    case ',' => Some(Comma) case '.' => Some(Dot)
    case '-' => Some(Minus) case '+' => Some(Plus)
    case ';' => Some(Semicolon) case '*' => Some(Star)
    case '%' => Some(Percent)
    case _ => None
  }

  predicate IsComparisonStart(c: char) {
    c == '!' || c == '=' || c == '<' || c == '>'
  }

  /** `!`, `=`, `<`, `>` and their forms followed by `=`. */
  function Comparison(c: char, withEqual: bool): (k: TokenType)
    requires IsComparisonStart(c)
    ensures Spelling(k) == [c] + (if withEqual then "=" else "")
  {
    match c
    case '!' => if withEqual then BangEqual else Bang
    case '=' => if withEqual then EqualEqual else Equal
    case '<' => if withEqual then LessEqual else Less
    case '>' => if withEqual then GreaterEqual else Greater
  }

  // ---- text shapes --------------------------------------------------------

  function Newlines(s: string): nat {
    if |s| == 0 then 0 else (if s[0] == '\n' then 1 else 0) + Newlines(s[1..])
  }

  lemma {:induction false} NewlinesAppend(a: string, b: string)
    ensures Newlines(a + b) == Newlines(a) + Newlines(b)
    decreases |a|
  {
    if |a| > 0 {
      assert (a + b)[0] == a[0];
      assert (a + b)[1..] == a[1..] + b;
      NewlinesAppend(a[1..], b);
    } else {
      assert a + b == b;
    }
  }

  lemma {:induction false} NoNewlines(s: string)
    requires forall i | 0 <= i < |s| :: s[i] != '\n'
    ensures Newlines(s) == 0
    decreases |s|
  {
    if |s| > 0 {
      NoNewlines(s[1..]);
    }
  }

  predicate IsIdentifierText(s: string) {
    |s| > 0 && IsAlpha(s[0]) && forall i | 0 <= i < |s| :: IsAlphaNumeric(s[i])
  }

  /** Digits, optionally followed by a dot and at least one more digit. */
  predicate IsNumberText(s: string) {
    exists k | 0 < k <= |s| ::
      && AllDigits(s[..k])
      && (k == |s| || (k + 1 < |s| && s[k] == '.' && AllDigits(s[k + 1..])))
  }

  /** A double-quoted run of characters containing no double quote. */
  predicate IsStringText(s: string) {
    && |s| >= 2 && s[0] == '"' && s[|s| - 1] == '"'
    && forall i | 1 <= i < |s| - 1 :: s[i] != '"'
  }

  /** The end of the run of digits starting at `i`. */
  function DigitsEnd(s: string, i: nat): (j: nat)
    requires i <= |s|
    ensures i <= j <= |s|
    ensures forall k | i <= k < j :: IsDigit(s[k])
    ensures j == |s| || !IsDigit(s[j])
    decreases |s| - i
  {
    if i < |s| && IsDigit(s[i]) then DigitsEnd(s, i + 1) else i
  }

  /** JavaScript's `parseFloat` on the number texts the scanner produces:
      the leading digits, plus the digits after a dot as a fraction. */
  function ParseNumber(s: string): real {
    var k := DigitsEnd(s, 0);
    assert AllDigits(s[..k]);
    var whole := DigitsValue(s[..k]) as real;
    if k + 1 < |s| && s[k] == '.' && IsDigit(s[k + 1]) then
      var m := DigitsEnd(s, k + 1);
      assert AllDigits(s[k + 1..m]);
      whole + DigitsValue(s[k + 1..m]) as real / Pow10(m - k - 1) as real
    else whole
  }

  /** The text of a natural number reads back as that number. */
  lemma ParseNatText(n: nat)
    ensures ParseNumber(NatToString(n)) == n as real
  {
    var s := NatToString(n);
    var k := DigitsEnd(s, 0);
    assert k == |s|;
    assert s[..k] == s;
    DigitsValueOfNatToString(n);
  }

  /** What a scanned token of each kind looks like: its text matches its
      kind, and its literal is the value the text denotes. */
  predicate TokenOk(t: Token) {
    match t.kind
    case Identifier => t.literal == LNil && IsIdentifierText(t.lexeme) && Keyword(t.lexeme) == None
    case NumberLit => IsNumberText(t.lexeme) && t.literal == LNum(ParseNumber(t.lexeme))
    case StringLit => IsStringText(t.lexeme) && t.literal == LStr(t.lexeme[1..|t.lexeme| - 1])
    case Eof => t.lexeme == "\0" && t.literal == LNil
    case _ => t.literal == LNil && t.lexeme == Spelling(t.kind)
  }

  // ---- the scanner state and its loops ---------------------------------------

  datatype Scanner = Scanner(start: nat, current: nat, line: int, tokens: seq<Token>, errors: seq<Diag>)

  function AddToken(src: string, s: Scanner, kind: TokenType, literal: LitValue): (s': Scanner)
    requires s.start <= s.current <= |src|
    ensures s'.tokens == s.tokens + [Token(kind, src[s.start..s.current], literal, s.line)]
    ensures s' == s.(tokens := s'.tokens)
  {
    s.(tokens := s.tokens + [Token(kind, src[s.start..s.current], literal, s.line)])
  }

  /** The string loop: up to the closing quote or the end, counting lines. */
  function StringEnd(src: string, i: nat, line: int): (r: (nat, int))
    requires i <= |src|
    ensures i <= r.0 <= |src|
    ensures r.0 == |src| || src[r.0] == '"'
    ensures forall k | i <= k < r.0 :: src[k] != '"'
    ensures r.1 == line + Newlines(src[i..r.0])
    decreases |src| - i
  {
    if i < |src| && src[i] != '"' then
      var r := StringEnd(src, i + 1, if src[i] == '\n' then line + 1 else line);
      assert src[i..r.0][1..] == src[i + 1..r.0];
      r
    else (i, line)
  }

  /** A line comment runs up to, not including, the next newline. */
  function LineCommentEnd(src: string, i: nat): (j: nat)
    requires i <= |src|
    ensures i <= j <= |src|
    ensures j == |src| || src[j] == '\n'
    ensures forall k | i <= k < j :: src[k] != '\n'
    decreases |src| - i
  {
    if i < |src| && src[i] != '\n' then LineCommentEnd(src, i + 1) else i
  }

  function IdentifierEnd(src: string, i: nat): (j: nat)
    requires i <= |src|
    ensures i <= j <= |src|
    ensures forall k | i <= k < j :: IsAlphaNumeric(src[k])
    ensures j == |src| || !IsAlphaNumeric(src[j])
    decreases |src| - i
  {
    if i < |src| && IsAlphaNumeric(src[i]) then IdentifierEnd(src, i + 1) else i
  }

  function MatchAt(src: string, i: nat, c: char): bool {
    i < |src| && src[i] == c
  }

  // The block-comment loop as written: each round tries a slash then a
  // star (opening a nested comment), then a star then a slash (closing
  // one), and then unconditionally consumes one more character, so the
  // character just after the closing delimiter is swallowed (and the end of
  // the text may be overrun by one).
  function BlockCommentAsWritten(src: string, i: nat, nesting: int): (j: nat)
    requires i <= |src| + 1
    ensures i <= j <= |src| + 1
    decreases |src| + 1 - i
  {
    if nesting == 0 || |src| <= i then i
    else
      var slash := MatchAt(src, i, '/');
      var i1 := if slash then i + 1 else i;
      var opens := slash && MatchAt(src, i1, '*');
      var i2 := if opens then i1 + 1 else i1;
      var n1 := if opens then nesting + 1 else nesting;
      var star := MatchAt(src, i2, '*');
      var i3 := if star then i2 + 1 else i2;
      var closes := star && MatchAt(src, i3, '/');
      var i4 := if closes then i3 + 1 else i3;
      var n2 := if closes then n1 - 1 else n1;
      BlockCommentAsWritten(src, i4 + 1, n2)
  }

  // The block-comment loop as evidently intended: an opening delimiter
  // nests, a closing one unnests, anything else is skipped, and scanning
  // resumes right after the outermost closing delimiter.
  function BlockComment(src: string, i: nat, nesting: int): (j: nat)
    requires i <= |src|
    ensures i <= j <= |src|
    ensures nesting > 0 && j < |src| ==> i + 2 <= j && src[j - 2] == '*' && src[j - 1] == '/'
    decreases |src| - i
  {
    if nesting <= 0 || |src| <= i then i
    else if MatchAt(src, i, '/') && MatchAt(src, i + 1, '*') then BlockComment(src, i + 2, nesting + 1)
    else if MatchAt(src, i, '*') && MatchAt(src, i + 1, '/') then
      (if nesting == 1 then i + 2 else BlockComment(src, i + 2, nesting - 1))
    else BlockComment(src, i + 1, nesting)
  }

  // A comment body free of slashes and stars followed by the closing
  // delimiter: the intended loop resumes right after the delimiter, the
  // loop as written one character later.
  lemma {:induction false} CommentCloses(src: string, i: nat, body: nat)
    requires i + body + 2 <= |src|
    requires forall k | i <= k < i + body :: src[k] != '/' && src[k] != '*'
    requires src[i + body] == '*' && src[i + body + 1] == '/'
    ensures BlockComment(src, i, 1) == i + body + 2
    ensures BlockCommentAsWritten(src, i, 1) == i + body + 3
    decreases body
  {
    if body > 0 {
      CommentCloses(src, i + 1, body - 1);
    }
  }

  function SkipBlockComment(rd: Reading, src: string, i: nat): (j: nat)
    requires i <= |src|
    ensures i <= j <= |src| + 1
    ensures rd == Intended ==> j <= |src|
  {
    if rd == AsWritten then BlockCommentAsWritten(src, i, 1) else BlockComment(src, i, 1)
  }

  predicate OpensBlockComment(src: string, i: nat) {
    i + 1 < |src| && src[i] == '/' && src[i + 1] == '*'
  }

  predicate IsBlank(c: char) {
    c == ' ' || c == '\r' || c == '\t' || c == '\n'
  }

  /** The characters a lexeme can begin with. */
  predicate StartsLexeme(c: char) {
    Single(c).Some? || IsComparisonStart(c) || c == '/' || c == '"' || IsDigit(c) || IsAlpha(c)
  }

  /** A line or block comment opener at `i`. */
  predicate OpensComment(src: string, i: nat) {
    i + 1 < |src| && src[i] == '/' && (src[i + 1] == '/' || src[i + 1] == '*')
  }

  /** No closing quote follows the quote at `i`. */
  predicate Unterminated(src: string, i: nat) {
    forall k | i < k < |src| :: src[k] != '"'
  }

  /** `src[i..j]` is passed over without a token or a diagnostic: one blank
      or newline, or a line comment running up to the next newline or the
      end. */
  predicate Skipped(src: string, i: nat, j: nat) {
    && i < j <= |src|
    && ((j == i + 1 && IsBlank(src[i]))
        || (&& i + 2 <= j && src[i] == '/' && src[i + 1] == '/'
            && (forall k | i + 2 <= k < j :: src[k] != '\n')
            && (j == |src| || src[j] == '\n')))
  }

  /** One step's guarantees: progress, only growth of the token and error
      lists, at most one new token whose text is the source text it was
      read from, and the line count; and a step that adds neither a token
      nor a diagnostic, outside a block comment, passed over blank text. */
  predicate StepOk(src: string, s: Scanner, s': Scanner) {
    && s.start == s.current < s'.current <= |src| + 1
    && s'.start == s.start
    && s.line <= s'.line
    && s.errors <= s'.errors
    && s.tokens <= s'.tokens && |s'.tokens| <= |s.tokens| + 1
    && (|s'.tokens| == |s.tokens| + 1 ==>
          var t := s'.tokens[|s.tokens|];
          && s'.current <= |src|
          && t.lexeme == src[s.start..s'.current]
          && t.line == s'.line
          && t.kind != Eof
          && TokenOk(t))
    && (!OpensBlockComment(src, s.start) ==>
          s'.current <= |src| && s'.line == s.line + Newlines(src[s.start..s'.current]))
    && (|s'.tokens| == |s.tokens| && s'.errors == s.errors && !OpensBlockComment(src, s.start) ==>
          Skipped(src, s.start, s'.current))
  }

  /** The `/` case: a line comment, a block comment, or a slash token. */
  function ScanSlash(rd: Reading, src: string, s: Scanner): (s': Scanner)
    requires s.current == s.start + 1 <= |src| && src[s.start] == '/'
    ensures StepOk(src, s.(current := s.start), s')
    ensures s'.errors == s.errors
    ensures OpensComment(src, s.start) ==> s'.tokens == s.tokens
    ensures !OpensComment(src, s.start) ==> s'.tokens == s.tokens + [Token(Slash, "/", LNil, s.line)]
  {
    var s0 := s.(current := s.start);
    if MatchAt(src, s.current, '/') then
      var j := LineCommentEnd(src, s.current + 1);
      NoNewlines(src[s.start..j]);
      s.(current := j)
    else if MatchAt(src, s.current, '*') then
      s.(current := SkipBlockComment(rd, src, s.current + 1))
    else
      assert src[s.start..s.current] == "/";
      assert Newlines(src[s.start..s.current]) == 0;
      AddToken(src, s, Slash, LNil)
  }

  /** The `"` case: a string token, or "Unterminated string" at the end. */
  function ScanString(src: string, s: Scanner): (s': Scanner)
    requires s.current == s.start + 1 <= |src| && src[s.start] == '"'
    ensures StepOk(src, s.(current := s.start), s')
    ensures Unterminated(src, s.start) ==>
      && s'.tokens == s.tokens && s'.current == |src|
      && s'.errors == s.errors + ErrorAtLine(s'.line, "Unterminated string")
    ensures !Unterminated(src, s.start) ==>
      && s'.errors == s.errors && |s'.tokens| == |s.tokens| + 1
      && s'.tokens[|s.tokens|].kind == StringLit
  {
    var (j, line) := StringEnd(src, s.current, s.line);
    QuoteNewlines(src, s.start, j);
    if j == |src| then
      s.(current := j, line := line,
         errors := s.errors + ErrorAtLine(line, "Unterminated string"))
    else
      StringTextAt(src, s.start, j);
      var s1 := s.(current := j + 1, line := line);
      AddTokenStep(src, s.(current := s.start), s1, StringLit, LStr(src[s.start + 1..j]));
      AddToken(src, s1, StringLit, LStr(src[s.start + 1..j]))
  }

  /** An opening quote is no newline. */
  lemma QuoteNewlines(src: string, start: nat, j: nat)
    requires start < j <= |src| && src[start] == '"'
    ensures Newlines(src[start..j]) == Newlines(src[start + 1..j])
  {
    assert src[start..j][1..] == src[start + 1..j];
  }

  /** From an opening quote to the next quote: a string text, whose contents
      and newlines are those between the quotes. */
  lemma StringTextAt(src: string, start: nat, j: nat)
    requires start < j < |src| && src[start] == '"' && src[j] == '"'
    requires forall k | start + 1 <= k < j :: src[k] != '"'
    ensures IsStringText(src[start..j + 1])
    ensures src[start..j + 1][1..j - start] == src[start + 1..j]
    ensures Newlines(src[start..j + 1]) == Newlines(src[start..j])
  {
    NewlinesAppend(src[start..j], [src[j]]);
    assert src[start..j + 1] == src[start..j] + [src[j]];
  }

  /** The number loop: digits, then a dot and more digits when a digit
      follows the dot. It stops before any further digit, and, when it took
      no fraction, before any dot-and-digit. */
  function NumberEnd(src: string, start: nat): (j: nat)
    requires start < |src| && IsDigit(src[start])
    ensures start < j <= |src| && IsNumberText(src[start..j])
    ensures j == |src| || !IsDigit(src[j])
    ensures '.' !in src[start..j] ==> !(j + 1 < |src| && src[j] == '.' && IsDigit(src[j + 1]))
  {
    var k := DigitsEnd(src, start + 1);
    var j :=
      if k + 1 < |src| && src[k] == '.' && IsDigit(src[k + 1]) then DigitsEnd(src, k + 1) else k;
    NumberTextAt(src, start, k, j);
    NumberEnds(src, start, k, j);
    j
  }

  /** The digit case: a number token for the longest number text here. */
  function ScanNumber(src: string, s: Scanner): (s': Scanner)
    requires s.current == s.start + 1 <= |src| && IsDigit(src[s.start])
    ensures StepOk(src, s.(current := s.start), s')
    ensures s'.errors == s.errors && s'.current == NumberEnd(src, s.start)
    ensures |s'.tokens| == |s.tokens| + 1 && s'.tokens[|s.tokens|].kind == NumberLit
  {
    var j := NumberEnd(src, s.start);
    var text := src[s.start..j];
    NoNewlines(text);
    var s1 := s.(current := j);
    var value := LNum(ParseNumber(text));
    AddTokenStep(src, s.(current := s.start), s1, NumberLit, value);
    AddToken(src, s1, NumberLit, value)
  }

  /** The digits, then optionally a dot and more digits, form a number text. */
  lemma NumberTextAt(src: string, start: nat, k: nat, j: nat)
    requires start < k <= j <= |src|
    requires forall i | start <= i < k :: IsDigit(src[i])
    requires j == k || (k + 1 < j && src[k] == '.' && forall i | k + 1 <= i < j :: IsDigit(src[i]))
    ensures IsNumberText(src[start..j])
  {
    var text := src[start..j];
    assert text[..k - start] == src[start..k];
    assert AllDigits(text[..k - start]);
    assert j > k ==> text[k - start + 1..] == src[k + 1..j];
  }

  /** The number loop stops where no digit, and no dot-and-digit after a
      number without a fraction, follows. */
  lemma NumberEnds(src: string, start: nat, k: nat, j: nat)
    requires start < k <= |src| && (k == |src| || !IsDigit(src[k]))
    requires j == if k + 1 < |src| && src[k] == '.' && IsDigit(src[k + 1]) then DigitsEnd(src, k + 1) else k
    ensures j == |src| || !IsDigit(src[j])
    ensures '.' !in src[start..j] ==> !(j + 1 < |src| && src[j] == '.' && IsDigit(src[j + 1]))
  {
    if j != k {
      assert src[start..j][k - start] == '.';
    }
  }

  /** Adding a well-formed token read from `s.start` to `s.current` is a step. */
  lemma AddTokenStep(src: string, s0: Scanner, s: Scanner, kind: TokenType, literal: LitValue)
    requires s0.start == s0.current == s.start < s.current <= |src|
    requires s0.tokens == s.tokens && s0.errors == s.errors
    requires s.line == s0.line + Newlines(src[s.start..s.current])
    requires kind != Eof && TokenOk(Token(kind, src[s.start..s.current], literal, s.line))
    ensures StepOk(src, s0, AddToken(src, s, kind, literal))
  {
  }

  /** The letter case: the longest word starting here, a keyword or an
      identifier. */
  function ScanIdentifier(src: string, s: Scanner): (s': Scanner)
    requires s.current == s.start + 1 <= |src| && IsAlpha(src[s.start])
    ensures StepOk(src, s.(current := s.start), s')
    ensures s'.errors == s.errors && |s'.tokens| == |s.tokens| + 1
    ensures s'.tokens[|s.tokens|].kind == Identifier || IsKeywordKind(s'.tokens[|s.tokens|].kind)
    ensures s'.current == |src| || !IsAlphaNumeric(src[s'.current])
  {
    var j := IdentifierEnd(src, s.current);
    var text := src[s.start..j];
    NoNewlines(text);
    var kind := Keyword(text);
    if kind.Some? then
      AddToken(src, s.(current := j), kind.value, LNil)
    else
      AddToken(src, s.(current := j), Identifier, LNil)
  }

  function ScanSingle(src: string, s: Scanner, kind: TokenType): (s': Scanner)
    requires s.current == s.start + 1 <= |src| && Spelling(kind) == [src[s.start]]
    requires kind !in {Identifier, StringLit, NumberLit, Eof}
    ensures StepOk(src, s.(current := s.start), s')
    ensures s'.errors == s.errors && |s'.tokens| == |s.tokens| + 1
  {
    assert src[s.start..s.current] == [src[s.start]];
    NoNewlines(src[s.start..s.current]);
    AddToken(src, s, kind, LNil)
  }

  /** `!`, `=`, `<` or `>`, extended by a following `=`. */
  function ScanComparison(src: string, s: Scanner): (s': Scanner)
    requires s.current == s.start + 1 <= |src| && IsComparisonStart(src[s.start])
    ensures StepOk(src, s.(current := s.start), s')
    ensures s'.errors == s.errors && |s'.tokens| == |s.tokens| + 1
  {
    var c := src[s.start];
    if MatchAt(src, s.current, '=') then
      assert src[s.start..s.current + 1] == [c, '='];
      NoNewlines(src[s.start..s.current + 1]);
      AddToken(src, s.(current := s.current + 1), Comparison(c, true), LNil)
    else
      ScanSingle(src, s, Comparison(c, false))
  }

  /** `scanToken`: reads one lexeme starting at `start`. A token is added
      exactly when the character begins a lexeme, other than a comment or an
      unterminated string; those two and blanks add none. A diagnostic is
      added exactly for an unexpected character and an unterminated string. */
  function ScanToken(rd: Reading, src: string, s: Scanner): (s': Scanner)
    requires s.start == s.current < |src|
    ensures StepOk(src, s, s')
    ensures var c := src[s.start];
      |s'.tokens| == |s.tokens| + 1 <==>
        StartsLexeme(c) && !OpensComment(src, s.start) && !(c == '"' && Unterminated(src, s.start))
    ensures !StartsLexeme(src[s.start]) && !IsBlank(src[s.start]) ==>
      s'.errors == s.errors + ErrorAtLine(s.line, "unexpected character '" + [src[s.start]] + "'")
    ensures src[s.start] == '"' && Unterminated(src, s.start) ==>
      s'.errors == s.errors + ErrorAtLine(s'.line, "Unterminated string")
    ensures var c := src[s.start];
      s'.errors == s.errors <==> (StartsLexeme(c) || IsBlank(c)) && !(c == '"' && Unterminated(src, s.start))
  {
    var c := src[s.current];
    var s1 := s.(current := s.current + 1);
    assert s1.(current := s.start) == s;
    assert src[s.start..s1.current] == [c];
    if Single(c).Some? then ScanSingle(src, s1, Single(c).value)
    else if IsComparisonStart(c) then ScanComparison(src, s1)
    else if c == '/' then ScanSlash(rd, src, s1)
    else if c == ' ' || c == '\r' || c == '\t' then s1
    else if c == '\n' then s1.(line := s1.line + 1)
    else if c == '"' then ScanString(src, s1)
    else if IsDigit(c) then ScanNumber(src, s1)
    else if IsAlpha(c) then ScanIdentifier(src, s1)
    else s1.(errors := s1.errors + ErrorAtLine(s1.line, "unexpected character '" + [c] + "'"))
  }

  predicate NoBlockComments(src: string, from: nat) {
    forall i | from <= i < |src| :: !OpensBlockComment(src, i)
  }

  /** The concatenated texts of a list of tokens. */
  function Lexemes(ts: seq<Token>): string {
    if |ts| == 0 then "" else Lexemes(ts[..|ts| - 1]) + ts[|ts| - 1].lexeme
  }

  /** `a` can be obtained from `b` by deleting characters. */
  predicate Subsequence(a: string, b: string)
    decreases |b|
  {
    if |a| == 0 then true
    else if |b| == 0 then false
    else if a[0] == b[0] then Subsequence(a[1..], b[1..])
    else Subsequence(a, b[1..])
  }

  lemma {:induction false} SubsequenceSkip(p: string, a: string, b: string)
    requires Subsequence(a, b)
    ensures Subsequence(a, p + b)
    decreases |b|, 1, |p|
  {
    if |p| > 0 && |a| > 0 {
      assert (p + b)[0] == p[0];
      assert (p + b)[1..] == p[1..] + b;
      if a[0] == p[0] {
        SubsequenceDrop(a, b);
        SubsequenceSkip(p[1..], a[1..], b);
      } else {
        SubsequenceSkip(p[1..], a, b);
      }
    } else if |p| == 0 {
      assert p + b == b;
    }
  }

  lemma {:induction false} SubsequenceDrop(a: string, b: string)
    requires |a| > 0 && Subsequence(a, b)
    ensures Subsequence(a[1..], b)
    decreases |b|, 0
  {
    if a[0] != b[0] {
      SubsequenceDrop(a, b[1..]);
    }
    SubsequenceSkip(b[..1], a[1..], b[1..]);
    assert b[..1] + b[1..] == b;
  }

  lemma {:induction false} SubsequenceBoth(p: string, a: string, b: string)
    requires Subsequence(a, b)
    ensures Subsequence(p + a, p + b)
    decreases |p|
  {
    if |p| > 0 {
      SubsequenceBoth(p[1..], a, b);
      assert (p + a)[0] == p[0] && (p + b)[0] == p[0];
      assert (p + a)[1..] == p[1..] + a;
      assert (p + b)[1..] == p[1..] + b;
    } else {
      assert p + a == a && p + b == b;
    }
  }

  lemma LexemesAppend(ts: seq<Token>, us: seq<Token>)
    ensures Lexemes(ts + us) == Lexemes(ts) + Lexemes(us)
    decreases |us|
  {
    if |us| > 0 {
      var front := us[..|us| - 1];
      assert (ts + us)[..|ts + us| - 1] == ts + front;
      assert (ts + us)[|ts + us| - 1] == us[|us| - 1];
      LexemesAppend(ts, front);
      assert Lexemes(ts + us) == Lexemes(ts) + Lexemes(front) + us[|us| - 1].lexeme;
    } else {
      assert ts + us == ts;
    }
  }

  /** Text the scanner passes over between tokens: blanks, newlines and line
      comments. A comment runs up to a newline inside the gap, or, only in
      the gap that ends the text, up to its end. */
  predicate IsGap(g: string, last: bool)
    decreases |g|
  {
    if |g| == 0 then true
    else if IsBlank(g[0]) then IsGap(g[1..], last)
    else
      && |g| >= 2 && g[0] == '/' && g[1] == '/'
      && var j := LineCommentEnd(g, 2);
         (j < |g| || last) && IsGap(g[j..], last)
  }

  /** The gaps and the token texts taken in turn, starting and ending with
      a gap. */
  function Interleave(gaps: seq<string>, ts: seq<Token>): string
    requires |gaps| == |ts| + 1
    decreases |ts|
  {
    if |ts| == 0 then gaps[0] else gaps[0] + ts[0].lexeme + Interleave(gaps[1..], ts[1..])
  }

  /** `text` is exactly the texts of `ts` in order, with gaps before,
      between and after them. */
  predicate Tiling(ts: seq<Token>, gaps: seq<string>, text: string) {
    && |gaps| == |ts| + 1
    && (forall i | 0 <= i < |ts| :: IsGap(gaps[i], false))
    && IsGap(gaps[|ts|], true)
    && text == Interleave(gaps, ts)
  }

  ghost predicate Tiled(ts: seq<Token>, text: string) {
    exists gaps :: Tiling(ts, gaps, text)
  }

  /** No scanned token's text is empty or begins with a newline. */
  lemma LexemeStart(t: Token)
    requires t.kind != Eof && TokenOk(t)
    ensures |t.lexeme| > 0 && t.lexeme[0] != '\n'
  {
    match t.kind
    case Identifier =>
    case NumberLit => var k :| 0 < k <= |t.lexeme| && AllDigits(t.lexeme[..k]);
      assert t.lexeme[..k][0] == t.lexeme[0];
    case StringLit =>
    case _ => SpellingStart(t.kind);
  }

  lemma SpellingStart(k: TokenType)
    requires k !in {Identifier, StringLit, NumberLit, Eof}
    ensures |Spelling(k)| > 0 && Spelling(k)[0] != '\n'
  {
  }

  /** How a tiled text begins. */
  lemma InterleaveStart(gaps: seq<string>, ts: seq<Token>)
    requires |gaps| == |ts| + 1
    requires forall i | 0 <= i < |ts| :: ts[i].kind != Eof && TokenOk(ts[i])
    ensures var text := Interleave(gaps, ts);
      && (|text| == 0 ==> gaps[0] == "" && |ts| == 0)
      && (|text| > 0 && text[0] == '\n' ==> |gaps[0]| > 0 && gaps[0][0] == '\n')
  {
    if |ts| > 0 {
      LexemeStart(ts[0]);
      if |gaps[0]| == 0 {
        assert Interleave(gaps, ts)[0] == ts[0].lexeme[0];
      }
    }
  }

  lemma GapBlank(c: char, g: string, last: bool)
    requires IsBlank(c) && IsGap(g, last)
    ensures IsGap([c] + g, last)
  {
    assert ([c] + g)[1..] == g;
  }

  /** A line comment, then a gap that starts with the newline ending it or,
      at the end of the text, nothing: a gap. */
  lemma GapComment(c: string, g: string, last: bool)
    requires |c| >= 2 && c[0] == '/' && c[1] == '/'
    requires forall k | 2 <= k < |c| :: c[k] != '\n'
    requires (|g| > 0 && g[0] == '\n') || (g == "" && last)
    requires IsGap(g, last)
    ensures IsGap(c + g, last)
  {
    var w := c + g;
    var j := LineCommentEnd(w, 2);
    assert forall k | 2 <= k < |c| :: w[k] == c[k];
    assert |g| > 0 ==> w[|c|] == '\n';
    assert j == |c|;
    assert w[j..] == g;
  }

  lemma TilingToken(t: Token, ts: seq<Token>, gaps: seq<string>, text: string)
    requires Tiling(ts, gaps, text)
    ensures Tiling([t] + ts, [""] + gaps, t.lexeme + text)
  {
    var gs := [""] + gaps;
    var us := [t] + ts;
    assert gs[1..] == gaps && us[1..] == ts;
    assert forall i | 1 <= i < |us| :: gs[i] == gaps[i - 1];
  }

  lemma TilingSkip(p: string, ts: seq<Token>, gaps: seq<string>, text: string)
    requires Tiling(ts, gaps, text)
    requires IsGap(p + gaps[0], |ts| == 0)
    ensures Tiling(ts, [p + gaps[0]] + gaps[1..], p + text)
  {
    var gs := [p + gaps[0]] + gaps[1..];
    assert forall i | 1 <= i < |gs| :: gs[i] == gaps[i];
    InterleaveSkip(p, ts, gaps);
  }

  lemma InterleaveSkip(p: string, ts: seq<Token>, gaps: seq<string>)
    requires |gaps| == |ts| + 1
    ensures Interleave([p + gaps[0]] + gaps[1..], ts) == p + Interleave(gaps, ts)
  {
    var gs := [p + gaps[0]] + gaps[1..];
    assert gs[0] == p + gaps[0] && gs[1..] == gaps[1..];
    if |ts| > 0 {
      var tail := ts[0].lexeme + Interleave(gaps[1..], ts[1..]);
      InterleaveCons(gs, ts);
      InterleaveCons(gaps, ts);
      AppendAssoc(p, gaps[0], tail);
    }
  }

  lemma InterleaveCons(gaps: seq<string>, ts: seq<Token>)
    requires |gaps| == |ts| + 1 && |ts| > 0
    ensures Interleave(gaps, ts) == gaps[0] + (ts[0].lexeme + Interleave(gaps[1..], ts[1..]))
  {
    assert gaps[0] + ts[0].lexeme + Interleave(gaps[1..], ts[1..])
        == gaps[0] + (ts[0].lexeme + Interleave(gaps[1..], ts[1..]));
  }

  lemma AppendAssoc(a: string, b: string, c: string)
    ensures (a + b) + c == a + (b + c)
  {
  }

  /** One step in front of a tiled rest: a token read from `src[here..next]`,
      or text passed over, keeps the whole rest tiled. */
  lemma TilingStep(src: string, here: nat, next: nat, front: seq<Token>, rest: seq<Token>, gaps: seq<string>)
    returns (gaps': seq<string>)
    requires here < next <= |src|
    requires Tiling(rest, gaps, src[next..])
    requires forall i | 0 <= i < |rest| :: rest[i].kind != Eof && TokenOk(rest[i])
    requires (|front| == 1 && front[0].lexeme == src[here..next]) || (|front| == 0 && Skipped(src, here, next))
    ensures Tiling(front + rest, gaps', src[here..])
  {
    assert src[here..] == src[here..next] + src[next..];
    if |front| == 1 {
      TilingToken(front[0], rest, gaps, src[next..]);
      assert [front[0]] == front;
      gaps' := [""] + gaps;
    } else {
      assert front + rest == rest;
      var p := src[here..next];
      InterleaveStart(gaps, rest);
      if next == here + 1 && IsBlank(src[here]) {
        assert p == [src[here]];
        GapBlank(src[here], gaps[0], |rest| == 0);
      } else {
        assert forall k | 2 <= k < |p| :: p[k] == src[here + k];
        assert next < |src| ==> src[next..][0] == '\n';
        GapComment(p, gaps[0], |rest| == 0);
      }
      TilingSkip(p, rest, gaps, src[next..]);
      gaps' := [p + gaps[0]] + gaps[1..];
    }
  }

  /** What the `scanTokens` loop guarantees from `s` to `s'`: it reaches
      the end, only adds tokens and errors, every new token is well formed,
      their texts appear in order in the source, and without block comments
      the line count is the number of newlines read; when, besides, nothing
      was reported, the rest of the source is exactly the new tokens' texts
      with gaps between them. */
  ghost predicate ScanOk(src: string, s: Scanner, s': Scanner) {
    && |src| <= s'.current
    && s.line <= s'.line
    && s.errors <= s'.errors
    && s.tokens <= s'.tokens
    && (forall i | |s.tokens| <= i < |s'.tokens| :: s'.tokens[i].kind != Eof && TokenOk(s'.tokens[i]))
    && (s.current <= |src| ==> Subsequence(Lexemes(s'.tokens[|s.tokens|..]), src[s.current..]))
    && (s.current <= |src| && NoBlockComments(src, s.current) ==> s'.line == s.line + Newlines(src[s.current..]))
    && (s.current <= |src| && NoBlockComments(src, s.current) && s'.errors == s.errors ==>
          Tiled(s'.tokens[|s.tokens|..], src[s.current..]))
  }

  /** The `scanTokens` loop from position `s.current`. */
  function ScanFrom(rd: Reading, src: string, s: Scanner): (s': Scanner)
    requires s.current <= |src| + 1
    ensures |src| <= s.current ==> s' == s
    ensures ScanOk(src, s, s')
    decreases |src| + 1 - s.current
  {
    if |src| <= s.current then
      assert s.tokens[|s.tokens|..] == [];
      assert s.current <= |src| ==> Tiling([], [""], src[s.current..]);
      s
    else
      var s1 := ScanToken(rd, src, s.(start := s.current));
      var s2 := ScanFrom(rd, src, s1);
      ScanFromStep(src, s, s1, s2);
      s2
  }

  /** One step of the loop followed by the rest of it keeps `ScanOk`. */
  lemma ScanFromStep(src: string, s: Scanner, s1: Scanner, s2: Scanner)
    requires s.current < |src|
    requires StepOk(src, s.(start := s.current), s1)
    requires |src| < s1.current ==> s2 == s1
    requires ScanOk(src, s1, s2)
    ensures ScanOk(src, s, s2)
  {
    StepTokens(src, s.(start := s.current), s1, s2);
    StepLexemes(src, s, s1, s2);
    StepLines(src, s, s1, s2);
    StepTiling(src, s, s1, s2);
  }

  lemma StepTiling(src: string, s: Scanner, s1: Scanner, s2: Scanner)
    requires s.current < |src|
    requires StepOk(src, s.(start := s.current), s1)
    requires |src| < s1.current ==> s2 == s1
    requires s1.tokens <= s2.tokens && s1.errors <= s2.errors
    requires forall i | |s1.tokens| <= i < |s2.tokens| :: s2.tokens[i].kind != Eof && TokenOk(s2.tokens[i])
    requires s1.current <= |src| && NoBlockComments(src, s1.current) && s2.errors == s1.errors ==>
      Tiled(s2.tokens[|s1.tokens|..], src[s1.current..])
    ensures NoBlockComments(src, s.current) && s2.errors == s.errors ==>
      Tiled(s2.tokens[|s.tokens|..], src[s.current..])
  {
    if NoBlockComments(src, s.current) && s2.errors == s.errors {
      assert !OpensBlockComment(src, s.current);
      assert |s1.errors| == |s.errors|;
      assert s1.errors == s.errors;
      var gaps :| Tiling(s2.tokens[|s1.tokens|..], gaps, src[s1.current..]);
      var front := s1.tokens[|s.tokens|..];
      var rest := s2.tokens[|s1.tokens|..];
      assert s2.tokens[|s.tokens|..] == front + rest;
      assert |front| == 1 ==> front[0] == s1.tokens[|s.tokens|];
      assert forall i | 0 <= i < |rest| :: rest[i] == s2.tokens[|s1.tokens| + i];
      var gaps' := TilingStep(src, s.current, s1.current, front, rest, gaps);
    }
  }

  lemma StepTokens(src: string, s: Scanner, s1: Scanner, s2: Scanner)
    requires StepOk(src, s, s1)
    requires s1.tokens <= s2.tokens
    requires forall i | |s1.tokens| <= i < |s2.tokens| :: s2.tokens[i].kind != Eof && TokenOk(s2.tokens[i])
    ensures s.tokens <= s2.tokens
    ensures forall i | |s.tokens| <= i < |s2.tokens| :: s2.tokens[i].kind != Eof && TokenOk(s2.tokens[i])
  {
    forall i | |s.tokens| <= i < |s2.tokens|
      ensures s2.tokens[i].kind != Eof && TokenOk(s2.tokens[i])
    {
      if i < |s1.tokens| {
        assert i == |s.tokens| && s2.tokens[i] == s1.tokens[i];
      }
    }
  }

  lemma StepLines(src: string, s: Scanner, s1: Scanner, s2: Scanner)
    requires s.current < |src|
    requires StepOk(src, s.(start := s.current), s1)
    requires |src| < s1.current ==> s2 == s1
    requires s1.current <= |src| && NoBlockComments(src, s1.current) ==>
      s2.line == s1.line + Newlines(src[s1.current..])
    ensures NoBlockComments(src, s.current) ==> s2.line == s.line + Newlines(src[s.current..])
  {
    if NoBlockComments(src, s.current) {
      assert !OpensBlockComment(src, s.current);
      NewlinesAppend(src[s.current..s1.current], src[s1.current..]);
      assert src[s.current..] == src[s.current..s1.current] + src[s1.current..];
    }
  }

  lemma StepLexemes(src: string, s: Scanner, s1: Scanner, s2: Scanner)
    requires s.current < |src|
    requires StepOk(src, s.(start := s.current), s1)
    requires |src| < s1.current ==> s2 == s1
    requires s1.tokens <= s2.tokens
    requires s1.current <= |src| ==> Subsequence(Lexemes(s2.tokens[|s1.tokens|..]), src[s1.current..])
    ensures Subsequence(Lexemes(s2.tokens[|s.tokens|..]), src[s.current..])
  {
    var front := s1.tokens[|s.tokens|..];
    if s1.current <= |src| {
      var rest := s2.tokens[|s1.tokens|..];
      assert s2.tokens[|s.tokens|..] == front + rest;
      assert |front| == 1 ==> front[0] == s1.tokens[|s.tokens|];
      LexemesStep(src, s.current, s1.current, front, rest);
    } else {
      assert |s1.tokens| == |s.tokens|;
      assert s2.tokens[|s.tokens|..] == [];
    }
  }

  /** At most one token read from `src[here..next]`, then tokens whose texts
      appear in order after `next`: all the texts appear in order after `here`. */
  lemma LexemesStep(src: string, here: nat, next: nat, front: seq<Token>, rest: seq<Token>)
    requires here <= next <= |src|
    requires |front| <= 1 && (|front| == 1 ==> front[0].lexeme == src[here..next])
    requires Subsequence(Lexemes(rest), src[next..])
    ensures Subsequence(Lexemes(front + rest), src[here..])
  {
    LexemesAppend(front, rest);
    assert src[here..] == src[here..next] + src[next..];
    if |front| == 1 {
      assert front[..0] == [];
      assert Lexemes(front) == Lexemes([]) + src[here..next];
      assert Lexemes(front) == src[here..next];
      SubsequenceBoth(src[here..next], Lexemes(rest), src[next..]);
    } else {
      assert Lexemes(front) + Lexemes(rest) == Lexemes(rest);
      SubsequenceSkip(src[here..next], Lexemes(rest), src[next..]);
    }
  }

  datatype Scanned = Scanned(tokens: seq<Token>, errors: seq<Diag>)

  /** `scanTokens`: the whole text, then one end-of-file token whose text
      is a NUL character. */
  function ScanTokens(rd: Reading, src: string): (r: Scanned)
    ensures |r.tokens| > 0
    ensures r.tokens[|r.tokens| - 1].kind == Eof && r.tokens[|r.tokens| - 1].lexeme == "\0"
    ensures forall i | 0 <= i < |r.tokens| - 1 :: r.tokens[i].kind != Eof
    ensures forall i | 0 <= i < |r.tokens| :: TokenOk(r.tokens[i])
    ensures Subsequence(Lexemes(r.tokens[..|r.tokens| - 1]), src)
    ensures NoBlockComments(src, 0) ==> r.tokens[|r.tokens| - 1].line == Newlines(src)
    ensures NoBlockComments(src, 0) && r.errors == [] ==> Tiled(r.tokens[..|r.tokens| - 1], src)
  {
    var s := ScanFrom(rd, src, Scanner(0, 0, 0, [], []));
    assert s.tokens[0..] == s.tokens;
    assert src[0..] == src;
    var eof := Token(Eof, "\0", LNil, s.line);
    assert TokenOk(eof);
    var ts := s.tokens + [eof];
    assert forall i | 0 <= i < |s.tokens| :: ts[i] == s.tokens[i];
    assert ts[..|ts| - 1] == s.tokens;
    Scanned(ts, s.errors)
  }

  // On the text "/**/x" the loop as written swallows the `x` that follows
  // the empty comment.
  lemma CommentSwallowsNextCharacter()
    ensures ScanTokens(AsWritten, "/**/x").tokens == [Token(Eof, "\0", LNil, 0)]
  {
    AsWrittenScan();
    ScanTokensOf(AsWritten, "/**/x", Scanner(0, 5, 0, [], []));
  }

  // The intended loop scans that `x` as an identifier.
  lemma CommentIntendedKeepsNextCharacter()
    ensures ScanTokens(Intended, "/**/x").tokens ==
      [Token(Identifier, "x", LNil, 0), Token(Eof, "\0", LNil, 0)]
  {
    IntendedScan();
    ScanTokensOf(Intended, "/**/x", Scanner(4, 5, 0, [Token(Identifier, "x", LNil, 0)], []));
  }

  /** The tokens of a whole scan are those of the loop, then end of file. */
  lemma ScanTokensOf(rd: Reading, src: string, s: Scanner)
    requires ScanFrom(rd, src, Scanner(0, 0, 0, [], [])) == s
    ensures ScanTokens(rd, src).tokens == s.tokens + [Token(Eof, "\0", LNil, s.line)]
  {
  }

  lemma AsWrittenScan()
    ensures ScanFrom(AsWritten, "/**/x", Scanner(0, 0, 0, [], [])) == Scanner(0, 5, 0, [], [])
  {
    EmptyCommentStep(AsWritten, 5);
  }

  lemma IntendedScan()
    ensures ScanFrom(Intended, "/**/x", Scanner(0, 0, 0, [], []))
      == Scanner(4, 5, 0, [Token(Identifier, "x", LNil, 0)], [])
  {
    EmptyCommentStep(Intended, 4);
    IdentifierStep();
    var c := Scanner(4, 5, 0, [Token(Identifier, "x", LNil, 0)], []);
    assert ScanFrom(Intended, "/**/x", Scanner(0, 4, 0, [], [])) == ScanFrom(Intended, "/**/x", c);
  }

  lemma EmptyCommentStep(rd: Reading, end: nat)
    requires end == if rd == AsWritten then 5 else 4
    ensures ScanToken(rd, "/**/x", Scanner(0, 0, 0, [], [])) == Scanner(0, end, 0, [], [])
  {
    var src := "/**/x";
    CommentCloses(src, 2, 0);
    assert Single('/') == None;
    assert MatchAt(src, 1, '*') && !MatchAt(src, 1, '/');
  }

  lemma IdentifierStep()
    ensures ScanToken(Intended, "/**/x", Scanner(4, 4, 0, [], []))
      == Scanner(4, 5, 0, [Token(Identifier, "x", LNil, 0)], [])
  {
    IdentifierDispatch("/**/x", Scanner(4, 4, 0, [], []));
    IdentifierX();
  }

  /** A step at the letter `x` is the identifier step. */
  lemma IdentifierDispatch(src: string, s: Scanner)
    requires s.start == s.current < |src| && src[s.current] == 'x'
    ensures ScanToken(Intended, src, s) == ScanIdentifier(src, s.(current := s.current + 1))
  {
    assert Single('x') == None && !IsComparisonStart('x') && !IsDigit('x') && IsAlpha('x');
  }

  lemma IdentifierX()
    ensures ScanIdentifier("/**/x", Scanner(4, 5, 0, [], []))
      == Scanner(4, 5, 0, [Token(Identifier, "x", LNil, 0)], [])
  {
    var src := "/**/x";
    assert IdentifierEnd(src, 5) == 5;
    assert src[4..5] == "x";
    KeywordLength("x");
  }
}
