/** The recursive-descent parser over a token list that ends in an
    end-of-file token. Each descent function takes the parser state and
    returns either a value with the new state or, standing for a thrown
    parse error, the state at the throw (the error already reported).
    Expression nodes are numbered from `nextId` as they are built. */
module Parsing {
  import opened Common
  import opened Tokens
  import opened Ast

  predicate ValidTokens(toks: seq<Token>) {
    |toks| > 0 && toks[|toks| - 1].kind == Eof
  }

  /** `loop` is the parser's loop nesting level. */
  datatype PState = PState(pos: nat, loop: int, errors: seq<ParseError>, nextId: nat)

  datatype Parsed<+T> = POk(value: T, st: PState) | PErr(st: PState)

  predicate Pre(toks: seq<Token>, st: PState) {
    ValidTokens(toks) && st.pos < |toks| && st.loop >= 0
  }

  /** The cursor only moves forward, and errors and node numbers only
      accumulate. */
  predicate Moved(toks: seq<Token>, st: PState, st': PState) {
    && Pre(toks, st')
    && st.pos <= st'.pos
    && st.errors <= st'.errors
    && st.nextId <= st'.nextId
    && st.loop <= st'.loop
  }

  // ---- messages -----------------------------------------------------------

  /** The two kinds of function the parser reads: top-level functions and
      class methods. */
  datatype FunKind = FunctionKind | MethodKind

  /** The parse error messages; `Text` spells them out. */
  datatype Message =
    | BreakOutsideLoop
    | ContinueOutsideLoop
    | TooManyArguments
    | TooManyParameters
    | ExpectParenAfterFor
    | ExpectParenAfterIf
    | ExpectParenAfterWhile
    | ExpectParenAfterArguments
    | ExpectParenAfterCondition
    | ExpectParenAfterExpression
    | ExpectParenAfterForClauses
    | ExpectParenAfterIfCondition
    | ExpectParenAfterParameters
    | ExpectDotAfterSuper
    | ExpectSemicolonAfterBreak
    | ExpectSemicolonAfterContinue
    | ExpectSemicolonAfterExpression
    | ExpectSemicolonAfterLoopCondition
    | ExpectSemicolonAfterReturnValue
    | ExpectSemicolonAfterValue
    | ExpectSemicolonAfterVar
    | ExpectBraceBeforeClassBody
    | ExpectBraceAfterBlock
    | ExpectBraceAfterClassBody
    | ExpectClassName
    | ExpectExpression
    | ExpectParameterName
    | ExpectPropertyName
    | ExpectSuperMethodName
    | ExpectSuperclassName
    | ExpectVariableName
    | ExpectColon
    | InvalidAssignmentTarget
    | ExpectKindName(kind: FunKind)
    | ExpectParenAfterName(kind: FunKind)
    | ExpectBraceBeforeBody(kind: FunKind)
    | NoInitializer(name: Token)

  /** A reported parse error: the token it is reported at and its message. */
  datatype ParseError = ParseError(token: Token, message: Message)

  function KindName(kind: FunKind): string {
    match kind
    case FunctionKind => "function"
    case MethodKind => "method"
  }

  /** The text of each message, as the parser reports it. */
  function Text(m: Message): string {
    match m
    case BreakOutsideLoop => "'break' statement should be in for or while loop body"
    case ContinueOutsideLoop => "'continue' statement should be in 'for' or 'while' loop body"
    case TooManyArguments => "Can't have more than 255 arguments"
    case TooManyParameters => "Can't have more than 255 parameters."
    case ExpectParenAfterFor => "Expect '(' after 'for'."
    case ExpectParenAfterIf => "Expect '(' after 'if'."
    case ExpectParenAfterWhile => "Expect '(' after 'while'."
    case ExpectParenAfterArguments => "Expect ')' after arguments."
    case ExpectParenAfterCondition => "Expect ')' after condition."
    case ExpectParenAfterExpression => "Expect ')' after expression."
    case ExpectParenAfterForClauses => "Expect ')' after for clauses."
    case ExpectParenAfterIfCondition => "Expect ')' after if condition."
    case ExpectParenAfterParameters => "Expect ')', after parameters."
    case ExpectDotAfterSuper => "Expect '.' after 'super'."
    case ExpectSemicolonAfterBreak => "Expect ';' after 'break'."
    case ExpectSemicolonAfterContinue => "Expect ';' after 'continue'."
    case ExpectSemicolonAfterExpression => "Expect ';' after expression."
    case ExpectSemicolonAfterLoopCondition => "Expect ';' after loop condition."
    case ExpectSemicolonAfterReturnValue => "Expect ';' after return value."
    case ExpectSemicolonAfterValue => "Expect ';' after value"
    case ExpectSemicolonAfterVar => "Expect ';' after variable declaration."
    case ExpectBraceBeforeClassBody => "Expect '{' before class body."
    case ExpectBraceAfterBlock => "Expect '}' after block"
    case ExpectBraceAfterClassBody => "Expect '}' after class body."
    case ExpectClassName => "Expect class name."
    case ExpectExpression => "Expect expression."
    case ExpectParameterName => "Expect paramenter name."
    case ExpectPropertyName => "Expect property name after '.'."
    case ExpectSuperMethodName => "Expect superclass method name."
    case ExpectSuperclassName => "Expect superclass name."
    case ExpectVariableName => "Expect variable name."
    case ExpectColon => "Expected ':'"
    case InvalidAssignmentTarget => "Invalid assignment target."
    case ExpectKindName(kind) => "Expect " + KindName(kind) + " name."
    case ExpectParenAfterName(kind) => "Expect '(' after " + KindName(kind) + " name."
    case ExpectBraceBeforeBody(kind) => "Expect '{', before " + KindName(kind) + " body."
    case NoInitializer(name) => "No initializer for variable '" + name.lexeme + "'"
  }

  // ---- cursor helpers -------------------------------------------------------

  predicate AtEnd(toks: seq<Token>, st: PState)
    requires st.pos < |toks|
  {
    toks[st.pos].kind == Eof
  }

  predicate Check(toks: seq<Token>, st: PState, k: TokenType)
    requires st.pos < |toks|
  {
    !AtEnd(toks, st) && toks[st.pos].kind == k
  }

  /** `advance`: moves past the current token unless it is the end. */
  function Advance(toks: seq<Token>, st: PState): (st': PState)
    requires Pre(toks, st)
    ensures Pre(toks, st')
    ensures AtEnd(toks, st) ==> st' == st
    ensures !AtEnd(toks, st) ==> st' == st.(pos := st.pos + 1)
  {
    if AtEnd(toks, st) then st else st.(pos := st.pos + 1)
  }

  /** `match`: consumes the current token when its kind is one of `kinds`;
      the end-of-file token never matches. */
  function Match(toks: seq<Token>, st: PState, kinds: set<TokenType>): (r: (bool, PState))
    requires Pre(toks, st)
    ensures Pre(toks, r.1)
    ensures r.0 <==> !AtEnd(toks, st) && toks[st.pos].kind in kinds
    ensures r.1 == if r.0 then st.(pos := st.pos + 1) else st
  {
    if !AtEnd(toks, st) && toks[st.pos].kind in kinds then (true, st.(pos := st.pos + 1))
    else (false, st)
  }

  /** `error(token, message)`: reports without throwing. */
  function Report(st: PState, t: Token, message: Message): (st': PState)
    ensures st' == st.(errors := st.errors + [ParseError(t, message)])
  {
    st.(errors := st.errors + [ParseError(t, message)])
  }

  /** `consume`: the current token if it has kind `k`, else a thrown error
      reported at the current token. */
  function Consume(toks: seq<Token>, st: PState, k: TokenType, message: Message): (r: Parsed<Token>)
    requires Pre(toks, st)
    ensures Moved(toks, st, r.st) && r.st.loop == st.loop && r.st.nextId == st.nextId
    ensures r.POk? <==> Check(toks, st, k)
    ensures r.POk? ==> r.value == toks[st.pos] && r.st == st.(pos := st.pos + 1)
    ensures r.PErr? ==> r.st == Report(st, toks[st.pos], message)
  {
    if Check(toks, st, k) then POk(toks[st.pos], st.(pos := st.pos + 1))
    else PErr(Report(st, toks[st.pos], message))
  }

  function Fresh(st: PState): (r: (nat, PState))
    ensures r.0 == st.nextId && r.1 == st.(nextId := st.nextId + 1)
  {
    (st.nextId, st.(nextId := st.nextId + 1))
  }

  // ---- precedence -----------------------------------------------------------

  /** The operator tokens of the binary levels: 2 `or`, 3 `and`,
      4 equality, 5 comparison, 6 term, 7 factor. */
  function OpsAt(lvl: nat): set<TokenType> {
    if lvl == 2 then {KwOr}
    else if lvl == 3 then {KwAnd}
    else if lvl == 4 then {BangEqual, EqualEqual}
    else if lvl == 5 then {Greater, GreaterEqual, Less, LessEqual}
    else if lvl == 6 then {Minus, Plus}
    else {Slash, Star, Percent, KwDiv}
  }

  function OpLevel(k: TokenType): nat {
    if k in OpsAt(4) then 4 else if k in OpsAt(5) then 5 else if k in OpsAt(6) then 6 else 7
  }

  /** How tightly an expression's outermost construct binds: assignment 1,
      the binary levels 2 to 7, unary 8, call and property access 9, atoms
      and groupings 10. The comma and conditional forms sit at 0. */
  function Level(e: Expr): nat {
    match e
    case Comma(_, _, _) => 0
    case Ternary(_, _, _, _) => 0
    case Assign(_, _, _) => 1
    case Set(_, _, _, _) => 1
    case Logical(_, _, op, _) => if op.kind == KwOr then 2 else 3
    case Binary(_, _, op, _) => OpLevel(op.kind)
    case Unary(_, _, _) => 8
    case Call(_, _, _, _) => 9
    case Get(_, _, _) => 9
    case _ => 10
  }

  /** Every operand binds at least as tightly as its operator demands: the
      left operand of a binary operator at least as tightly as the operator
      (left associativity), the right operand strictly more tightly, an
      assigned value at any level (right associativity). */
  predicate WellNested(e: Expr) {
    match e
    case Assign(_, _, v) => Level(v) >= 1 && WellNested(v)
    case Set(_, obj, _, v) => Level(obj) >= 9 && Level(v) >= 1 && WellNested(obj) && WellNested(v)
    case Logical(_, l, _, r) => Level(l) >= Level(e) && Level(r) > Level(e) && WellNested(l) && WellNested(r)
    case Binary(_, l, _, r) => Level(l) >= Level(e) && Level(r) > Level(e) && WellNested(l) && WellNested(r)
    case Unary(_, _, r) => Level(r) >= 8 && WellNested(r)
    case Call(_, c, _, args) =>
      && Level(c) >= 9 && WellNested(c)
      && forall i | 0 <= i < |args| :: Level(args[i]) >= 1 && WellNested(args[i])
    case Get(_, obj, _) => Level(obj) >= 9 && WellNested(obj)
    case Grouping(_, inner) => Level(inner) >= 1 && WellNested(inner)
    case Comma(_, l, r) => Level(r) >= 4 && WellNested(l) && WellNested(r)
    case Ternary(_, c, t, f) => WellNested(c) && WellNested(t) && WellNested(f)
    case _ => true
  }

  /** What every expression-level function guarantees: a parsed expression
      consumed at least one token, is well nested and binds at least as
      tightly as `lvl`; the loop level is untouched. */
  predicate ExprPost(toks: seq<Token>, st: PState, r: Parsed<Expr>, lvl: nat) {
    && Moved(toks, st, r.st)
    && r.st.loop == st.loop
    && Reported(st, r)
    && (r.POk? ==> r.st.pos > st.pos && WellNested(r.value) == true && Level(r.value) >= lvl)
  }

  /** A thrown error has always been reported. */
  predicate Reported<T>(st: PState, r: Parsed<T>) {
    r.PErr? ==> |st.errors| < |r.st.errors|
  }

  // ---- expressions ----------------------------------------------------------

  /** `expression`: goes straight to assignment. */
  function Expression(toks: seq<Token>, st: PState): (r: Parsed<Expr>)
    requires Pre(toks, st)
    ensures ExprPost(toks, st, r, 1)
    decreases |toks| - st.pos, 19
  {
    Assignment(toks, st)
  }

  /** `assignment`: right associative; a variable target becomes `Assign`,
      a property target becomes `Set`, and any other target is reported
      (not thrown) and the left side is the result. */
  function Assignment(toks: seq<Token>, st: PState): (r: Parsed<Expr>)
    requires Pre(toks, st)
    ensures ExprPost(toks, st, r, 1)
    decreases |toks| - st.pos, 18
  {
    var left := BinaryLevel(toks, st, 2);
    if left.PErr? then left
    else
      var (m, s1) := Match(toks, left.st, {Equal});
      if !m then left
      else
        var value := Assignment(toks, s1);
        if value.PErr? then value
        else AssignTo(left.value, toks[s1.pos - 1], value.value, value.st)
  }

  /** The target check of `assignment`; `equals` is the `=` token. */
  function AssignTo(target: Expr, equals: Token, value: Expr, st: PState): (r: Parsed<Expr>)
    requires WellNested(target) && Level(target) >= 1 && WellNested(value) && Level(value) >= 1
    ensures r.POk? && WellNested(r.value) && Level(r.value) >= 1
    ensures r.st.pos == st.pos && r.st.loop == st.loop && st.errors <= r.st.errors && st.nextId <= r.st.nextId
    ensures target.Variable? ==> r.value == Assign(st.nextId, target.name, value)
    ensures target.Get? ==> r.value == Set(st.nextId, target.obj, target.name, value)
    ensures !target.Variable? && !target.Get? ==>
              r == POk(target, Report(st, equals, InvalidAssignmentTarget))
  {
    match target
    case Variable(_, name) => POk(Assign(st.nextId, name, value), st.(nextId := st.nextId + 1))
    case Get(_, obj, name) => POk(Set(st.nextId, obj, name, value), st.(nextId := st.nextId + 1))
    case _ => POk(target, Report(st, equals, InvalidAssignmentTarget))
  }

  /** One binary level (`or`, `and`, `equality`, `comparison`, `term`,
      `factor`): an operand, then a left-associative loop. */
  function BinaryLevel(toks: seq<Token>, st: PState, lvl: nat): (r: Parsed<Expr>)
    requires Pre(toks, st) && 2 <= lvl <= 7
    ensures ExprPost(toks, st, r, lvl)
    decreases |toks| - st.pos, 2 * (10 - lvl) + 1
  {
    var first := Operand(toks, st, lvl);
    if first.PErr? then first
    else BinaryLoop(toks, first.st, lvl, first.value)
  }

  /** The next tighter level: the next binary level, or unary below factor. */
  function Operand(toks: seq<Token>, st: PState, lvl: nat): (r: Parsed<Expr>)
    requires Pre(toks, st) && 2 <= lvl <= 7
    ensures ExprPost(toks, st, r, lvl + 1)
    decreases |toks| - st.pos, 2 * (10 - lvl)
  {
    if lvl == 7 then Unary(toks, st) else BinaryLevel(toks, st, lvl + 1)
  }

  function BinaryLoop(toks: seq<Token>, st: PState, lvl: nat, left: Expr): (r: Parsed<Expr>)
    requires Pre(toks, st) && 2 <= lvl <= 7
    requires WellNested(left) && Level(left) >= lvl
    ensures Moved(toks, st, r.st) && r.st.loop == st.loop && Reported(st, r)
    ensures r.POk? ==> WellNested(r.value) && Level(r.value) >= lvl
    decreases |toks| - st.pos, 2 * (10 - lvl) - 1
  {
    var (m, s1) := Match(toks, st, OpsAt(lvl));
    if !m then POk(left, st)
    else
      var op := toks[s1.pos - 1];
      var right := Operand(toks, s1, lvl);
      if right.PErr? then right
      else
        var (id, s2) := Fresh(right.st);
        var node := if lvl <= 3 then Logical(id, left, op, right.value) else Binary(id, left, op, right.value);
        assert Level(node) == lvl;
        BinaryLoop(toks, s2, lvl, node)
  }

  /** `unary`: prefix `!` and `-`, right-recursive, else a call. */
  function Unary(toks: seq<Token>, st: PState): (r: Parsed<Expr>)
    requires Pre(toks, st)
    ensures ExprPost(toks, st, r, 8)
    decreases |toks| - st.pos, 5
  {
    var (m, s1) := Match(toks, st, {Bang, Minus});
    if m then
      var op := toks[s1.pos - 1];
      var right := Unary(toks, s1);
      if right.PErr? then right
      else
        var (id, s2) := Fresh(right.st);
        POk(Expr.Unary(id, op, right.value), s2)
    else CallExpr(toks, st)
  }

  /** `call`: a primary followed by any chain of calls and property
      accesses, nesting to the left. */
  function CallExpr(toks: seq<Token>, st: PState): (r: Parsed<Expr>)
    requires Pre(toks, st)
    ensures ExprPost(toks, st, r, 9)
    decreases |toks| - st.pos, 4
  {
    var p := Primary(toks, st);
    if p.PErr? then p else CallLoop(toks, p.st, p.value)
  }

  function CallLoop(toks: seq<Token>, st: PState, expr: Expr): (r: Parsed<Expr>)
    requires Pre(toks, st) && WellNested(expr) && Level(expr) >= 9
    ensures Moved(toks, st, r.st) && r.st.loop == st.loop && Reported(st, r)
    ensures r.POk? ==> WellNested(r.value) && Level(r.value) >= 9
    decreases |toks| - st.pos, 3
  {
    var (paren, s1) := Match(toks, st, {LeftParen});
    if paren then
      var call := FinishCall(toks, s1, expr);
      if call.PErr? then call else CallLoop(toks, call.st, call.value)
    else
      var (dot, s2) := Match(toks, st, {Dot});
      if dot then
        var name := Consume(toks, s2, Identifier, ExpectPropertyName);
        if name.PErr? then PErr(name.st)
        else
          var (id, s3) := Fresh(name.st);
          CallLoop(toks, s3, Get(id, expr, name.value))
      else POk(expr, st)
  }

  /** `finishCall`: the argument list after `(`; more than 255 arguments
      are reported without throwing. */
  function FinishCall(toks: seq<Token>, st: PState, callee: Expr): (r: Parsed<Expr>)
    requires Pre(toks, st) && WellNested(callee) && Level(callee) >= 9
    ensures Moved(toks, st, r.st) && r.st.loop == st.loop && Reported(st, r)
    ensures r.POk? ==> r.st.pos > st.pos && r.value.Call? && WellNested(r.value)
    decreases |toks| - st.pos, 30
  {
    var args := if Check(toks, st, RightParen) then POk([], st) else Arguments(toks, st, []);
    if args.PErr? then PErr(args.st)
    else
      var paren := Consume(toks, args.st, RightParen, ExpectParenAfterArguments);
      if paren.PErr? then PErr(paren.st)
      else
        var (id, s1) := Fresh(paren.st);
        POk(Call(id, callee, paren.value, args.value), s1)
  }

  function Arguments(toks: seq<Token>, st: PState, args: seq<Expr>): (r: Parsed<seq<Expr>>)
    requires Pre(toks, st)
    requires forall i | 0 <= i < |args| :: Level(args[i]) >= 1 && WellNested(args[i])
    ensures Moved(toks, st, r.st) && r.st.loop == st.loop && Reported(st, r)
    ensures r.POk? ==> forall i | 0 <= i < |r.value| :: Level(r.value[i]) >= 1 && WellNested(r.value[i])
    decreases |toks| - st.pos, 29
  {
    var s0 := if 255 <= |args| then Report(st, toks[st.pos], TooManyArguments) else st;
    var e := Expression(toks, s0);
    if e.PErr? then PErr(e.st)
    else
      var (comma, s1) := Match(toks, e.st, {TokenType.Comma});
      if comma then Arguments(toks, s1, args + [e.value]) else POk(args + [e.value], e.st)
  }

  /** `primary`: literals, `super.name`, `this`, a variable, a
      parenthesized expression, or the thrown ExpectExpression. */
  function Primary(toks: seq<Token>, st: PState): (r: Parsed<Expr>)
    requires Pre(toks, st)
    ensures ExprPost(toks, st, r, 10)
    decreases |toks| - st.pos, 2
  {
    var t := toks[st.pos];
    var atom := Atom(t, st.nextId);
    if atom.Some? then POk(atom.value, st.(pos := st.pos + 1, nextId := st.nextId + 1))
    else if t.kind == KwSuper then SuperAccess(toks, st)
    else if t.kind == LeftParen then Group(toks, st)
    else PErr(Report(st, t, ExpectExpression))
  }

  /** The one-token primaries: `false`, `true`, `nil`, number and string
      literals (carrying the scanner's value), `this` and a variable. */
  function Atom(t: Token, id: nat): (e: Option<Expr>)
    ensures e.Some? <==> t.kind in {KwFalse, KwTrue, KwNil, NumberLit, StringLit, KwThis, Identifier}
    ensures e.Some? ==> e.value.id == id && Level(e.value) == 10 && WellNested(e.value)
    ensures e.Some? && e.value.Literal? ==>
              e.value.lit == match t.kind
                             case KwFalse => LBool(false)
                             case KwTrue => LBool(true)
                             case KwNil => LNil
                             case _ => t.literal
  {
    match t.kind
    case KwFalse => Some(Literal(id, LBool(false)))
    case KwTrue => Some(Literal(id, LBool(true)))
    case KwNil => Some(Literal(id, LNil))
    case NumberLit => Some(Literal(id, t.literal))
    case StringLit => Some(Literal(id, t.literal))
    case KwThis => Some(This(id, t))
    case Identifier => Some(Variable(id, t))
    case _ => None
  }

  /** `super . name`, from the keyword. */
  function SuperAccess(toks: seq<Token>, st: PState): (r: Parsed<Expr>)
    requires Pre(toks, st) && toks[st.pos].kind == KwSuper
    ensures ExprPost(toks, st, r, 10)
    ensures r.POk? ==> r.value.Super? && r.value.keyword == toks[st.pos]
    decreases |toks| - st.pos, 0
  {
    var keyword := toks[st.pos];
    var dot := Consume(toks, st.(pos := st.pos + 1), Dot, ExpectDotAfterSuper);
    if dot.PErr? then PErr(dot.st)
    else
      var name := Consume(toks, dot.st, Identifier, ExpectSuperMethodName);
      if name.PErr? then PErr(name.st)
      else POk(Super(name.st.nextId, keyword, name.value), name.st.(nextId := name.st.nextId + 1))
  }

  /** A parenthesized expression, from the `(`. */
  function Group(toks: seq<Token>, st: PState): (r: Parsed<Expr>)
    requires Pre(toks, st) && toks[st.pos].kind == LeftParen
    ensures ExprPost(toks, st, r, 10)
    ensures r.POk? ==> r.value.Grouping?
    decreases |toks| - st.pos, 1
  {
    var inner := Expression(toks, st.(pos := st.pos + 1));
    if inner.PErr? then inner
    else
      var close := Consume(toks, inner.st, RightParen, ExpectParenAfterExpression);
      if close.PErr? then PErr(close.st)
      else POk(Grouping(close.st.nextId, inner.value), close.st.(nextId := close.st.nextId + 1))
  }

  /** `comma`: equality operands separated by commas, left associative.
      Nothing calls it from `expression`, so parsed programs never contain
      it. */
  function CommaExpr(toks: seq<Token>, st: PState): (r: Parsed<Expr>)
    requires Pre(toks, st)
    ensures ExprPost(toks, st, r, 0)
    decreases |toks| - st.pos, 24
  {
    var first := BinaryLevel(toks, st, 4);
    if first.PErr? then first else CommaLoop(toks, first.st, first.value)
  }

  function CommaLoop(toks: seq<Token>, st: PState, left: Expr): (r: Parsed<Expr>)
    requires Pre(toks, st) && WellNested(left)
    ensures Moved(toks, st, r.st) && r.st.loop == st.loop && Reported(st, r)
    ensures r.POk? ==> WellNested(r.value)
    decreases |toks| - st.pos, 23
  {
    var (m, s1) := Match(toks, st, {TokenType.Comma});
    if !m then POk(left, st)
    else
      var right := BinaryLevel(toks, s1, 4);
      if right.PErr? then PErr(right.st)
      else
        var (id, s2) := Fresh(right.st);
        CommaLoop(toks, s2, Expr.Comma(id, left, right.value))
  }

  /** `ternary`: `cond ? a : b` over comma expressions; also unreachable
      from `expression`. */
  function TernaryExpr(toks: seq<Token>, st: PState): (r: Parsed<Expr>)
    requires Pre(toks, st)
    ensures ExprPost(toks, st, r, 0)
    decreases |toks| - st.pos, 25
  {
    var c := CommaExpr(toks, st);
    if c.PErr? then c
    else
      var (q, s1) := Match(toks, c.st, {Question});
      if !q then c else TernaryTail(toks, s1, c.value)
  }

  function TernaryTail(toks: seq<Token>, st: PState, cond: Expr): (r: Parsed<Expr>)
    requires Pre(toks, st) && WellNested(cond)
    ensures Moved(toks, st, r.st) && r.st.loop == st.loop && Reported(st, r)
    ensures r.POk? ==> r.value.Ternary? && WellNested(r.value)
    decreases |toks| - st.pos, 0
  {
    var t := CommaExpr(toks, st);
    if t.PErr? then t
    else
      var colon := Consume(toks, t.st, Colon, ExpectColon);
      if colon.PErr? then PErr(colon.st)
      else
        var f := CommaExpr(toks, colon.st);
        if f.PErr? then f
        else POk(Ternary(f.st.nextId, cond, t.value, f.value), f.st.(nextId := f.st.nextId + 1))
  }

}
