/** Tokens of the TypeScript front end and the diagnostics the front end and
    the resolver report. */
module Tokens {

  datatype TokenType =
    // single-character tokens
    | LeftParen | RightParen | LeftBrace | RightBrace
    | Comma | Dot | Minus | Plus | Semicolon | Slash | Star
    | Question | Colon | Percent
    // one- or two-character tokens
    | Bang | BangEqual | Equal | EqualEqual
    | Greater | GreaterEqual | Less | LessEqual
    // literals
    | Identifier | StringLit | NumberLit
    // keywords
    | KwAnd | KwClass | KwElse | KwFalse | KwFun | KwFor | KwIf | KwNil | KwOr
    | KwPrint | KwReturn | KwSuper | KwThis | KwTrue | KwVar | KwWhile
    | KwContinue | KwBreak | KwDiv
    | Eof

  /** The literal a token carries: a number or string for NUMBER/STRING
      tokens, `null` otherwise; the same shape is the value of a Literal
      expression. */
  datatype LitValue = LNil | LBool(b: bool) | LNum(n: real) | LStr(s: string)

  datatype Token = Token(kind: TokenType, lexeme: string, literal: LitValue, line: int)

  /** One reported diagnostic: line, location text and message. */
  datatype Diag = Diag(line: int, where: string, message: string)

  /** `error(line, message)` of the driver. */
  function ErrorAtLine(line: int, message: string): seq<Diag> {
    [Diag(line, "", message)]
  }

  /** `error(token, message)` of the driver: a token at end of input is
      reported " at end" and then, because the driver does not return after
      that report, a second time with its lexeme. */
  function ErrorAtToken(t: Token, message: string): (d: seq<Diag>)
    ensures |d| == (if t.kind == Eof then 2 else 1)
    ensures d[|d| - 1] == Diag(t.line, " at '" + t.lexeme + "'", message)
    ensures t.kind == Eof ==> d[0] == Diag(t.line, " at end", message)
  {
    (if t.kind == Eof then [Diag(t.line, " at end", message)] else [])
      + [Diag(t.line, " at '" + t.lexeme + "'", message)]
  }
}
