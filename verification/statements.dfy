module Statements {
  import opened Common
  import opened Tokens
  import opened Ast
  import opened Parsing

  /** An identifier followed by `)` is a whole expression: no level of the
      grammar continues past it. */
  lemma VariableAlone(toks: seq<Token>, st: PState)
    requires Pre(toks, st) && toks[st.pos].kind == Identifier
    requires st.pos + 1 < |toks| && toks[st.pos + 1].kind == RightParen
    ensures Parsing.Expression(toks, st) == LoneVariable(toks, st)
  {
    VariableAloneAt(toks, st, 2);
    var (m, _) := Match(toks, LoneVariable(toks, st).st, {Equal});
    assert !m;
  }

  function LoneVariable(toks: seq<Token>, st: PState): Parsed<Expr>
    requires st.pos < |toks| && toks[st.pos].kind == Identifier
  {
    POk(Variable(st.nextId, toks[st.pos]), st.(pos := st.pos + 1, nextId := st.nextId + 1))
  }

  lemma {:induction false} VariableAloneAt(toks: seq<Token>, st: PState, lvl: nat)
    requires Pre(toks, st) && 2 <= lvl <= 7 && toks[st.pos].kind == Identifier
    requires st.pos + 1 < |toks| && toks[st.pos + 1].kind == RightParen
    ensures BinaryLevel(toks, st, lvl) == LoneVariable(toks, st)
    decreases 7 - lvl
  {
    var a := LoneVariable(toks, st);
    if lvl == 7 {
      VariableAloneUnary(toks, st);
    } else {
      VariableAloneAt(toks, st, lvl + 1);
    }
    assert Operand(toks, st, lvl) == a;
    ParenEndsLevel(toks, a.st, lvl, a.value);
  }

  /** No binary operator is `)`: the loop of every level stops there. */
  lemma ParenEndsLevel(toks: seq<Token>, st: PState, lvl: nat, left: Expr)
    requires Pre(toks, st) && 2 <= lvl <= 7 && toks[st.pos].kind == RightParen
    requires WellNested(left) && Level(left) >= lvl
    ensures BinaryLoop(toks, st, lvl, left) == POk(left, st)
  {
    var (m, _) := Match(toks, st, OpsAt(lvl));
    assert !m;
  }

  /** The unary level, the base of `VariableAloneAt`. */
  lemma VariableAloneUnary(toks: seq<Token>, st: PState)
    requires Pre(toks, st) && toks[st.pos].kind == Identifier
    requires st.pos + 1 < |toks| && toks[st.pos + 1].kind == RightParen
    ensures Parsing.Unary(toks, st) == LoneVariable(toks, st)
  {
    var a := LoneVariable(toks, st);
    assert Parsing.Primary(toks, st) == a;
    assert CallLoop(toks, a.st, a.value) == a;
  }


  // ---- statements -----------------------------------------------------------

  /** `expression` as the statement level calls it; an atom closed by `)`
      stands alone. */
  method ParseExpression(toks: seq<Token>, st: PState) returns (r: Parsed<Expr>)
    requires Pre(toks, st)
    ensures ExprPost(toks, st, r, 1)
    ensures toks[st.pos].kind == Identifier && st.pos + 1 < |toks| && toks[st.pos + 1].kind == RightParen ==>
              r == LoneVariable(toks, st)
  {
    r := Parsing.Expression(toks, st);
    if toks[st.pos].kind == Identifier && st.pos + 1 < |toks| && toks[st.pos + 1].kind == RightParen {
      VariableAlone(toks, st);
    }
  }

  /** A well-nested expression at assignment level or tighter (what
      `expression` produces). */
  predicate ExprOk(e: Expr) {
    Level(e) >= 1 && WellNested(e) == true
  }

  /** Every `break` and `continue` sits inside a `while` (or, when
      `inLoop`, the context already is a loop body), and every expression is
      well nested. As written the branches of an `if` also count as a loop
      body. Function bodies inherit the context: the parser does not reset
      the loop level for them. */
  predicate Shaped(s: Stmt, rd: Reading, inLoop: bool) {
    match s
    case Break => inLoop
    case Continue => inLoop
    case Expression(e) => ExprOk(e)
    case Print(e) => ExprOk(e)
    case Var(_, init) => ExprOk(init)
    case Return(_, v) => v.Some? ==> ExprOk(v.value)
    case Block(ss) => AllShaped(ss, rd, inLoop)
    case If(c, t, e) =>
      && ExprOk(c) && Shaped(t, rd, inLoop || rd == AsWritten)
      && (e.Some? ==> Shaped(e.value, rd, inLoop || rd == AsWritten))
    case While(c, body) => ExprOk(c) && Shaped(body, rd, true)
    case Func(decl) => AllShaped(decl.body, rd, inLoop)
    case Class(_, _, methods) => MethodsShaped(methods, rd, inLoop)
  }

  predicate AllShaped(ss: seq<Stmt>, rd: Reading, inLoop: bool) {
    forall i | 0 <= i < |ss| :: Shaped(ss[i], rd, inLoop)
  }

  predicate MethodsShaped(methods: seq<FuncDecl>, rd: Reading, inLoop: bool) {
    forall m | 0 <= m < |methods| :: AllShaped(methods[m].body, rd, inLoop)
  }

  /** An `if` is shaped when its condition is well nested and its branches
      are shaped in the context they are parsed in. */
  lemma ShapedIf(c: Expr, t: Stmt, e: Option<Stmt>, rd: Reading, inLoop: bool)
    requires ExprOk(c) && Shaped(t, rd, inLoop || rd == AsWritten) == true
    requires e.Some? ==> Shaped(e.value, rd, inLoop || rd == AsWritten) == true
    ensures Shaped(If(c, t, e), rd, inLoop) == true
  {
  }

  /** Shapedness outside a loop implies shapedness inside one. */
  lemma {:induction false} ShapedWeakens(s: Stmt, rd: Reading)
    requires Shaped(s, rd, false)
    ensures Shaped(s, rd, true)
  {
    match s
    case Block(ss) => AllShapedWeakens(ss, rd);
    case If(c, t, e) =>
      if rd == Intended {
        ShapedWeakens(t, rd);
        if e.Some? { ShapedWeakens(e.value, rd); }
      }
    case Func(decl) => AllShapedWeakens(decl.body, rd);
    case Class(_, _, methods) =>
      forall m | 0 <= m < |methods| ensures AllShaped(methods[m].body, rd, true) {
        AllShapedWeakens(methods[m].body, rd);
      }
    case _ =>
  }

  lemma {:induction false} AllShapedWeakens(ss: seq<Stmt>, rd: Reading)
    requires AllShaped(ss, rd, false)
    ensures AllShaped(ss, rd, true)
    decreases ss, 0
  {
    forall i | 0 <= i < |ss| ensures Shaped(ss[i], rd, true) { ShapedWeakens(ss[i], rd); }
  }

  lemma AllShapedMono(ss: seq<Stmt>, rd: Reading, b: bool, b': bool)
    requires AllShaped(ss, rd, b) == true && (b ==> b')
    ensures AllShaped(ss, rd, b')
  {
    if b != b' { AllShapedWeakens(ss, rd); }
  }

  lemma MethodsShapedMono(methods: seq<FuncDecl>, rd: Reading, b: bool, b': bool)
    requires MethodsShaped(methods, rd, b) == true && (b ==> b')
    ensures MethodsShaped(methods, rd, b')
  {
    forall m | 0 <= m < |methods| ensures AllShaped(methods[m].body, rd, b') {
      AllShapedMono(methods[m].body, rd, b, b');
    }
  }

  lemma ShapedMono(s: Stmt, rd: Reading, b: bool, b': bool)
    requires Shaped(s, rd, b) == true && (b ==> b')
    ensures Shaped(s, rd, b')
  {
    if b != b' { ShapedWeakens(s, rd); }
  }

  /** As written, the loop level is only trusted while nothing has been
      reported: a thrown error skips the decrement that follows it. */
  predicate Clean(rd: Reading, st: PState, st': PState) {
    rd == Intended || |st'.errors| == |st.errors|
  }

  /** The context in which the statements parsed from `st` to `st'` are
      shaped: inside a loop when the loop level was positive, or, as
      written, once an error has been reported. */
  predicate Context(rd: Reading, st: PState, st': PState) {
    st.loop > 0 || !Clean(rd, st, st')
  }

  /** What every statement-level method guarantees. Shapedness is compared
      with `true` here and in the contracts below so that the verifier
      takes it as one fact instead of expanding it case by case. */
  predicate StmtPost(rd: Reading, toks: seq<Token>, st: PState, r: Parsed<Stmt>) {
    && Moved(toks, st, r.st)
    && Reported(st, r)
    && (Clean(rd, st, r.st) ==> r.st.loop == st.loop)
    && (r.POk? ==> r.st.pos > st.pos && Shaped(r.value, rd, Context(rd, st, r.st)) == true)
  }

  /** What the statements without sub-statements guarantee: they end in a
      `;` and leave the loop level alone. */
  predicate SimplePost(toks: seq<Token>, st: PState, r: Parsed<Stmt>) {
    && Moved(toks, st, r.st)
    && r.st.loop == st.loop
    && Reported(st, r)
    && (r.POk? ==> r.st.pos > st.pos && toks[r.st.pos - 1].kind == Semicolon)
  }

  /** The loop level at which the body of a `while`, `if` or `for` is
      parsed: as written `while` and `if` raise it and `for` does not; in
      the intended reading the two loops raise it and `if` does not. */
  function BodyLevel(rd: Reading, k: TokenType, loop: int): int {
    if k == KwWhile || (k == KwIf && rd == AsWritten) || (k == KwFor && rd == Intended) then loop + 1 else loop
  }

  /** Where the code as written leaves the loop level raised after a thrown
      error, the intended reading restores it. */
  function Restore(rd: Reading, st: PState, loop: int): (st': PState)
    ensures rd == AsWritten ==> st' == st
    ensures rd == Intended ==> st' == st.(loop := loop)
  {
    if rd == Intended then st.(loop := loop) else st
  }

  /** `declaration`: a class, function or variable declaration, or a
      statement; a thrown error is caught here, the parser resynchronizes
      and nothing is produced. */
  method Declaration(rd: Reading, toks: seq<Token>, st: PState) returns (d: Option<Stmt>, st': PState)
    requires Pre(toks, st)
    ensures Moved(toks, st, st')
    ensures !AtEnd(toks, st) ==> st'.pos > st.pos
    ensures Clean(rd, st, st') ==> st'.loop == st.loop
    ensures d.Some? ==> Shaped(d.value, rd, Context(rd, st, st')) == true
    ensures d.None? ==> |st.errors| < |st'.errors| && SyncPoint(toks, st'.pos)
    decreases |toks| - st.pos, 80
  {
    var res := DeclarationBody(rd, toks, st);
    if res.POk? {
      return Some(res.value), res.st;
    }
    var synced := Synchronize(toks, res.st);
    assert !AtEnd(toks, st) ==> synced.pos > st.pos;
    d, st' := None, Restore(rd, synced, st.loop);
  }

  /** The part of `declaration` inside its `try`. */
  method DeclarationBody(rd: Reading, toks: seq<Token>, st: PState) returns (r: Parsed<Stmt>)
    requires Pre(toks, st)
    ensures StmtPost(rd, toks, st, r)
    decreases |toks| - st.pos, 79
  {
    var k := toks[st.pos].kind;
    if k == KwClass {
      r := ClassDeclaration(rd, toks, st.(pos := st.pos + 1));
    } else if k == KwFun {
      var f := Function(rd, toks, st.(pos := st.pos + 1), FunctionKind);
      r := if f.PErr? then PErr(f.st) else POk(Func(f.value), f.st);
    } else if k == KwVar {
      r := VarDeclaration(toks, st.(pos := st.pos + 1));
    } else {
      r := Statement(rd, toks, st);
    }
  }

  /** The tokens that start a declaration or a statement `synchronize`
      stops before. */
  const StatementStarts: set<TokenType> := {KwClass, KwFun, KwVar, KwFor, KwIf, KwWhile, KwPrint, KwReturn}

  /** `synchronize`: skips at least one token (unless at the end) and stops
      just after a `;`, just before a token that starts a statement, or at
      the end, whichever comes first. */
  function Synchronize(toks: seq<Token>, st: PState): (st': PState)
    requires Pre(toks, st)
    ensures Pre(toks, st') && st' == st.(pos := st'.pos) && st.pos <= st'.pos
    ensures !AtEnd(toks, st) ==> st'.pos > st.pos
    ensures SyncPoint(toks, st'.pos)
    ensures forall j | st.pos <= j < st'.pos - 1 :: toks[j].kind != Semicolon
    ensures forall j | st.pos < j < st'.pos :: toks[j].kind !in StatementStarts && toks[j].kind != Eof
  {
    SyncLoop(toks, Advance(toks, st))
  }

  /** Where `synchronize` may stop. */
  predicate SyncPoint(toks: seq<Token>, pos: nat)
    requires pos < |toks|
  {
    toks[pos].kind == Eof || (pos > 0 && toks[pos - 1].kind == Semicolon) || toks[pos].kind in StatementStarts
  }

  function SyncLoop(toks: seq<Token>, st: PState): (st': PState)
    requires Pre(toks, st) && (AtEnd(toks, st) || st.pos > 0)
    ensures Pre(toks, st') && st' == st.(pos := st'.pos) && st.pos <= st'.pos
    ensures SyncPoint(toks, st'.pos)
    ensures forall j | 0 <= j && st.pos - 1 <= j < st'.pos - 1 :: toks[j].kind != Semicolon
    ensures forall j | st.pos <= j < st'.pos :: toks[j].kind !in StatementStarts && toks[j].kind != Eof
    decreases |toks| - st.pos
  {
    if SyncPoint(toks, st.pos) then st
    else SyncLoop(toks, st.(pos := st.pos + 1))
  }

  datatype ClassHead = ClassHead(name: Token, superclass: Option<VariableExpr>)

  /** The start of `classDeclaration`, after the keyword: the name, an
      optional `< Superclass` and the opening brace. */
  method ClassHeader(toks: seq<Token>, st: PState) returns (r: Parsed<ClassHead>)
    requires Pre(toks, st)
    ensures Moved(toks, st, r.st) && r.st.loop == st.loop && Reported(st, r)
    ensures r.POk? ==> r.st.pos > st.pos && toks[r.st.pos - 1].kind == LeftBrace
    ensures r.POk? ==> r.value.name == toks[st.pos] && toks[st.pos].kind == Identifier
    ensures r.POk? ==> (r.value.superclass.Some? <==> toks[st.pos + 1].kind == Less)
  {
    var name := Consume(toks, st, Identifier, ExpectClassName);
    if name.PErr? { return PErr(name.st); }
    var superclass: Option<VariableExpr> := None;
    var (less, cur) := Match(toks, name.st, {Less});
    if less {
      var sn := Consume(toks, cur, Identifier, ExpectSuperclassName);
      if sn.PErr? { return PErr(sn.st); }
      var v: VariableExpr := Variable(sn.st.nextId, sn.value);
      superclass, cur := Some(v), sn.st.(nextId := sn.st.nextId + 1);
    }
    var brace := Consume(toks, cur, LeftBrace, ExpectBraceBeforeClassBody);
    if brace.PErr? { return PErr(brace.st); }
    r := POk(ClassHead(name.value, superclass), brace.st);
  }

  /** `classDeclaration`, after the keyword: methods up to the closing
      brace. */
  method ClassDeclaration(rd: Reading, toks: seq<Token>, st: PState) returns (r: Parsed<Stmt>)
    requires Pre(toks, st)
    ensures StmtPost(rd, toks, st, r)
    ensures r.POk? ==> r.value.Class? && r.value.name == toks[st.pos] && toks[r.st.pos - 1].kind == RightBrace
    decreases |toks| - st.pos, 0
  {
    var head := ClassHeader(toks, st);
    if head.PErr? { return PErr(head.st); }
    var body := ClassBody(rd, toks, head.st);
    if body.PErr? { return PErr(body.st); }
    MethodsShapedMono(body.value, rd, Context(rd, head.st, body.st), Context(rd, st, body.st));
    r := POk(Class(head.value.name, head.value.superclass, body.value), body.st);
  }

  /** The methods of a class body, up to and including the closing brace. */
  method ClassBody(rd: Reading, toks: seq<Token>, st: PState) returns (r: Parsed<seq<FuncDecl>>)
    requires Pre(toks, st)
    ensures Moved(toks, st, r.st) && Reported(st, r)
    ensures Clean(rd, st, r.st) ==> r.st.loop == st.loop
    ensures r.POk? ==> r.st.pos > st.pos && toks[r.st.pos - 1].kind == RightBrace
    ensures r.POk? ==> MethodsShaped(r.value, rd, Context(rd, st, r.st)) == true
    decreases |toks| - st.pos, 1
  {
    var cur := st;
    var methods: seq<FuncDecl> := [];
    while !Check(toks, cur, RightBrace) && !AtEnd(toks, cur)
      invariant Moved(toks, st, cur)
      invariant Clean(rd, st, cur) ==> cur.loop == st.loop
      invariant MethodsShaped(methods, rd, Context(rd, st, cur)) == true
      decreases |toks| - cur.pos
    {
      var f := Function(rd, toks, cur, MethodKind);
      if f.PErr? { return PErr(f.st); }
      AllShapedMono(f.value.body, rd, Context(rd, cur, f.st), Context(rd, st, f.st));
      MethodsShapedMono(methods, rd, Context(rd, st, cur), Context(rd, st, f.st));
      methods, cur := methods + [f.value], f.st;
    }
    var close := Consume(toks, cur, RightBrace, ExpectBraceAfterClassBody);
    if close.PErr? { return PErr(close.st); }
    r := POk(methods, close.st);
  }

  datatype Signature = Signature(name: Token, params: seq<Token>)

  /** The start of `func(kind)`: the name, the parameter list and the
      opening brace of the body. */
  method FunctionSignature(toks: seq<Token>, st: PState, kind: FunKind) returns (r: Parsed<Signature>)
    requires Pre(toks, st)
    ensures Moved(toks, st, r.st) && r.st.loop == st.loop && Reported(st, r)
    ensures r.POk? ==> r.st.pos > st.pos && toks[r.st.pos - 1].kind == LeftBrace
    ensures r.POk? ==> r.value.name == toks[st.pos] && toks[st.pos].kind == Identifier
    ensures r.POk? ==> forall i | 0 <= i < |r.value.params| :: r.value.params[i].kind == Identifier
  {
    var name := Consume(toks, st, Identifier, ExpectKindName(kind));
    if name.PErr? { return PErr(name.st); }
    var params := ParameterList(toks, name.st, kind);
    if params.PErr? { return PErr(params.st); }
    var brace := Consume(toks, params.st, LeftBrace, ExpectBraceBeforeBody(kind));
    if brace.PErr? { return PErr(brace.st); }
    r := POk(Signature(name.value, params.value), brace.st);
  }

  /** The parenthesized parameters of `func(kind)`; more than 255 are
      reported without throwing. */
  method ParameterList(toks: seq<Token>, st: PState, kind: FunKind) returns (r: Parsed<seq<Token>>)
    requires Pre(toks, st)
    ensures Moved(toks, st, r.st) && r.st.loop == st.loop && Reported(st, r)
    ensures r.POk? ==> r.st.pos > st.pos && toks[r.st.pos - 1].kind == RightParen
    ensures r.POk? ==> forall i | 0 <= i < |r.value| :: r.value[i].kind == Identifier
    ensures r.POk? && toks[st.pos + 1].kind == RightParen ==> r.value == []
  {
    var open := Consume(toks, st, LeftParen, ExpectParenAfterName(kind));
    if open.PErr? { return PErr(open.st); }
    r := ClosedParameters(toks, open.st);
  }

  /** The parameters after `(`, up to and including `)`. */
  method ClosedParameters(toks: seq<Token>, st: PState) returns (r: Parsed<seq<Token>>)
    requires Pre(toks, st)
    ensures Moved(toks, st, r.st) && r.st.loop == st.loop && Reported(st, r)
    ensures r.POk? ==> r.st.pos > st.pos && toks[r.st.pos - 1].kind == RightParen
    ensures r.POk? ==> forall i | 0 <= i < |r.value| :: r.value[i].kind == Identifier
    ensures r.POk? && toks[st.pos].kind == RightParen ==> r.value == []
  {
    var params := if Check(toks, st, RightParen) then POk([], st) else Parameters(toks, st, []);
    if params.PErr? { return params; }
    var close := Consume(toks, params.st, RightParen, ExpectParenAfterParameters);
    if close.PErr? { return PErr(close.st); }
    r := POk(params.value, close.st);
  }

  function Parameters(toks: seq<Token>, st: PState, params: seq<Token>): (r: Parsed<seq<Token>>)
    requires Pre(toks, st)
    ensures Moved(toks, st, r.st) && r.st.loop == st.loop && Reported(st, r)
    ensures r.POk? ==> params < r.value
    ensures r.POk? ==> forall i | |params| <= i < |r.value| :: r.value[i].kind == Identifier
    decreases |toks| - st.pos
  {
    var s0 := if 255 <= |params| then Report(st, toks[st.pos], TooManyParameters) else st;
    var p := Consume(toks, s0, Identifier, ExpectParameterName);
    if p.PErr? then PErr(p.st)
    else
      var (comma, s1) := Match(toks, p.st, {TokenType.Comma});
      if comma then
        var rest := Parameters(toks, s1, params + [p.value]);
        rest
      else POk(params + [p.value], p.st)
  }

  /** `func(kind)`, after the keyword for a function: the signature, then
      the body. */
  method Function(rd: Reading, toks: seq<Token>, st: PState, kind: FunKind) returns (r: Parsed<FuncDecl>)
    requires Pre(toks, st)
    ensures Moved(toks, st, r.st) && Reported(st, r)
    ensures Clean(rd, st, r.st) ==> r.st.loop == st.loop
    ensures r.POk? ==> r.st.pos > st.pos && r.value.name == toks[st.pos] && toks[st.pos].kind == Identifier
    ensures r.POk? ==> AllShaped(r.value.body, rd, Context(rd, st, r.st)) == true
    decreases |toks| - st.pos, 0
  {
    var sig := FunctionSignature(toks, st, kind);
    if sig.PErr? { return PErr(sig.st); }
    var body := BlockBody(rd, toks, sig.st);
    if body.PErr? { return PErr(body.st); }
    AllShapedMono(body.value, rd, Context(rd, sig.st, body.st), Context(rd, st, body.st));
    r := POk(FuncDecl(sig.value.name, sig.value.params, body.value), body.st);
  }

  /** `block`, after its `{`: declarations up to `}`; failed declarations
      are dropped. */
  method BlockBody(rd: Reading, toks: seq<Token>, st: PState) returns (r: Parsed<seq<Stmt>>)
    requires Pre(toks, st)
    ensures Moved(toks, st, r.st) && Reported(st, r)
    ensures Clean(rd, st, r.st) ==> r.st.loop == st.loop
    ensures r.POk? ==> r.st.pos > st.pos && toks[r.st.pos - 1].kind == RightBrace
    ensures r.POk? ==> AllShaped(r.value, rd, Context(rd, st, r.st)) == true
    decreases |toks| - st.pos, 81
  {
    var cur := st;
    var acc: seq<Stmt> := [];
    while !Check(toks, cur, RightBrace) && !AtEnd(toks, cur)
      invariant Moved(toks, st, cur)
      invariant Clean(rd, st, cur) ==> cur.loop == st.loop
      invariant AllShaped(acc, rd, Context(rd, st, cur)) == true
      decreases |toks| - cur.pos
    {
      var d, next := Declaration(rd, toks, cur);
      AllShapedMono(acc, rd, Context(rd, st, cur), Context(rd, st, next));
      if d.Some? {
        ShapedMono(d.value, rd, Context(rd, cur, next), Context(rd, st, next));
        acc := acc + [d.value];
      }
      cur := next;
    }
    var close := Consume(toks, cur, RightBrace, ExpectBraceAfterBlock);
    if close.PErr? { return PErr(close.st); }
    r := POk(acc, close.st);
  }

  /** `statement`: dispatch on the first token. A `break` or `continue` is
      accepted exactly when the loop level is positive and a `;` follows. */
  method Statement(rd: Reading, toks: seq<Token>, st: PState) returns (r: Parsed<Stmt>)
    requires Pre(toks, st)
    ensures StmtPost(rd, toks, st, r)
    ensures toks[st.pos].kind == KwBreak ==>
              && (r.POk? <==> st.loop > 0 && toks[st.pos + 1].kind == Semicolon)
              && (r.POk? ==> r.value == Break && r.st.pos == st.pos + 2)
    ensures toks[st.pos].kind == KwContinue ==>
              (r.POk? <==> st.loop > 0 && toks[st.pos + 1].kind == Semicolon) && (r.POk? ==> r.value == Continue)
    decreases |toks| - st.pos, 78
  {
    var k := toks[st.pos].kind;
    if k == KwFor || k == KwIf || k == KwWhile || k == LeftBrace {
      r := Compound(rd, toks, st);
    } else {
      r := Simple(rd, toks, st);
      if r.POk? { ShapedMono(r.value, rd, st.loop > 0, Context(rd, st, r.st)); }
    }
  }

  /** The statements that contain statements. */
  method Compound(rd: Reading, toks: seq<Token>, st: PState) returns (r: Parsed<Stmt>)
    requires Pre(toks, st) && toks[st.pos].kind in {KwFor, KwIf, KwWhile, LeftBrace}
    ensures StmtPost(rd, toks, st, r)
    decreases |toks| - st.pos, 77
  {
    var k := toks[st.pos].kind;
    var next := st.(pos := st.pos + 1);
    if k == KwFor {
      r := ForStatement(rd, toks, next);
    } else if k == KwIf {
      r := IfStatement(rd, toks, next);
    } else if k == KwWhile {
      r := WhileStatement(rd, toks, next);
    } else {
      var body := BlockBody(rd, toks, next);
      r := if body.PErr? then PErr(body.st) else POk(Block(body.value), body.st);
    }
  }

  /** The statements without sub-statements: `print`, `return`, `break`,
      `continue` and expression statements. */
  method Simple(rd: Reading, toks: seq<Token>, st: PState) returns (r: Parsed<Stmt>)
    requires Pre(toks, st)
    ensures SimplePost(toks, st, r)
    ensures r.POk? ==> Shaped(r.value, rd, st.loop > 0) == true
    ensures toks[st.pos].kind == KwBreak ==>
              && (r.POk? <==> st.loop > 0 && toks[st.pos + 1].kind == Semicolon)
              && (r.POk? ==> r.value == Break && r.st.pos == st.pos + 2)
    ensures toks[st.pos].kind == KwContinue ==>
              (r.POk? <==> st.loop > 0 && toks[st.pos + 1].kind == Semicolon) && (r.POk? ==> r.value == Continue)
  {
    var k := toks[st.pos].kind;
    if k == KwBreak || k == KwContinue {
      r := Jump(toks, st.(pos := st.pos + 1), k == KwBreak);
    } else {
      r := Plain(rd, toks, st);
      if r.POk? { ShapedMono(r.value, rd, false, st.loop > 0); }
    }
  }

  /** `print`, `return` and expression statements, which hold no `break`
      or `continue`. */
  method Plain(rd: Reading, toks: seq<Token>, st: PState) returns (r: Parsed<Stmt>)
    requires Pre(toks, st)
    ensures SimplePost(toks, st, r)
    ensures r.POk? ==> Shaped(r.value, rd, false) == true
  {
    var k := toks[st.pos].kind;
    if k == KwPrint {
      r := PrintStatement(toks, st.(pos := st.pos + 1));
    } else if k == KwReturn {
      r := ReturnStatement(toks, st.(pos := st.pos + 1));
    } else {
      r := ExpressionStatement(toks, st);
    }
  }

  /** `break` or `continue`, after the keyword: accepted only at a positive
      loop level, otherwise a thrown error reported at the keyword. */
  function Jump(toks: seq<Token>, st: PState, isBreak: bool): (r: Parsed<Stmt>)
    requires Pre(toks, st) && st.pos > 0
    ensures SimplePost(toks, st, r)
    ensures r.POk? <==> st.loop > 0 && toks[st.pos].kind == Semicolon
    ensures r.POk? ==> r.value == (if isBreak then Break else Continue) && r.st.pos == st.pos + 1
    ensures st.loop <= 0 ==> r.st == Report(st, toks[st.pos - 1], if isBreak then BreakOutsideLoop else ContinueOutsideLoop)
  {
    if 0 < st.loop then
      var semi := Consume(toks, st, Semicolon, if isBreak then ExpectSemicolonAfterBreak else ExpectSemicolonAfterContinue);
      if semi.PErr? then PErr(semi.st) else POk(if isBreak then Break else Continue, semi.st)
    else
      PErr(Report(st, toks[st.pos - 1], if isBreak then BreakOutsideLoop else ContinueOutsideLoop))
  }

  /** A parenthesized condition, as `if` and `while` read it; a lone
      identifier in parentheses is read as that variable. */
  method Condition(toks: seq<Token>, st: PState, isWhile: bool) returns (r: Parsed<Expr>)
    requires Pre(toks, st)
    ensures Moved(toks, st, r.st) && r.st.loop == st.loop && Reported(st, r)
    ensures r.POk? ==> r.st.pos > st.pos && toks[r.st.pos - 1].kind == RightParen && ExprOk(r.value)
    ensures ParenVariable(toks, st.pos) ==>
              r.POk? && r.value == Variable(st.nextId, toks[st.pos + 1]) && r.st.pos == st.pos + 3
  {
    var open := Consume(toks, st, LeftParen, if isWhile then ExpectParenAfterWhile else ExpectParenAfterIf);
    if open.PErr? { return PErr(open.st); }
    var cond := ParseExpression(toks, open.st);
    if cond.PErr? { return PErr(cond.st); }
    var close := Consume(toks, cond.st, RightParen, if isWhile then ExpectParenAfterCondition else ExpectParenAfterIfCondition);
    if close.PErr? { return PErr(close.st); }
    r := POk(cond.value, close.st);
  }

  /** The tokens `( a ) break ;` from `pos`, `a` an identifier, with
      no `else` after them. */
  predicate IfBreak(toks: seq<Token>, pos: nat) {
    ParenVariable(toks, pos) && LoneBreak(toks, pos + 3)
  }

  /** The tokens `( a )` from `pos`, `a` an identifier. */
  predicate ParenVariable(toks: seq<Token>, pos: nat) {
    pos + 2 < |toks| && toks[pos].kind == LeftParen && toks[pos + 1].kind == Identifier && toks[pos + 2].kind == RightParen
  }

  /** The tokens `break ;` from `pos`, with no `else` after them. */
  predicate LoneBreak(toks: seq<Token>, pos: nat) {
    BreakStatement(toks, pos) && pos + 2 < |toks| && toks[pos + 2].kind != KwElse
  }

  /** The tokens `break ;` from `pos`. */
  predicate BreakStatement(toks: seq<Token>, pos: nat) {
    pos + 1 < |toks| && toks[pos].kind == KwBreak && toks[pos + 1].kind == Semicolon
  }

  /** `ifStatement`, after the keyword. */
  method IfStatement(rd: Reading, toks: seq<Token>, st: PState) returns (r: Parsed<Stmt>)
    requires Pre(toks, st)
    ensures StmtPost(rd, toks, st, r)
    ensures r.POk? ==> r.value.If?
    ensures IfBreak(toks, st.pos) ==> (r.POk? <==> BodyLevel(rd, KwIf, st.loop) > 0)
    decreases |toks| - st.pos, 0
  {
    var level := BodyLevel(rd, KwIf, st.loop);
    var cond := Condition(toks, st.(loop := level), false);
    if cond.PErr? { return PErr(Restore(rd, cond.st, st.loop)); }
    ghost var ifBreak := IfBreak(toks, st.pos);
    if ifBreak {
      assert cond.st.pos == st.pos + 3;
    }
    r := Branches(rd, toks, cond.st, st, cond.value);
    assert ifBreak ==> (r.POk? <==> level > 0);
  }

  /** The `if` whose keyword was read in state `outer` and whose condition
      is `cond`: the `then` branch and an optional `else` branch, parsed at
      the raised loop level, which is put back afterwards (as written, only
      when nothing was thrown). */
  method Branches(rd: Reading, toks: seq<Token>, st: PState, outer: PState, cond: Expr) returns (r: Parsed<Stmt>)
    requires Pre(toks, st) && outer.loop >= 0 && st.loop == BodyLevel(rd, KwIf, outer.loop)
    requires |outer.errors| <= |st.errors| && ExprOk(cond)
    ensures Moved(toks, st.(loop := outer.loop), r.st) && Reported(st, r)
    ensures Clean(rd, st, r.st) ==> r.st.loop == outer.loop
    ensures r.POk? ==> r.st.pos > st.pos && r.value.If? && Shaped(r.value, rd, Context(rd, outer, r.st)) == true
    ensures LoneBreak(toks, st.pos) ==>
              (r.POk? <==> st.loop > 0)
    decreases |toks| - st.pos, 80
  {
    var b := ThenElse(rd, toks, st);
    if b.PErr? { return PErr(Restore(rd, b.st, outer.loop)); }
    var after := b.st.(loop := b.st.loop - (st.loop - outer.loop));
    var ctx := Context(rd, outer, after);
    ShapedMono(b.value.0, rd, Context(rd, st, b.st), ctx || rd == AsWritten);
    if b.value.1.Some? {
      ShapedMono(b.value.1.value, rd, Context(rd, st, b.st), ctx || rd == AsWritten);
    }
    ShapedIf(cond, b.value.0, b.value.1, rd, ctx);
    r := POk(If(cond, b.value.0, b.value.1), after);
  }

  /** The `then` branch and the optional `else` branch of an `if`. */
  method ThenElse(rd: Reading, toks: seq<Token>, st: PState) returns (r: Parsed<(Stmt, Option<Stmt>)>)
    requires Pre(toks, st)
    ensures Moved(toks, st, r.st) && Reported(st, r)
    ensures Clean(rd, st, r.st) ==> r.st.loop == st.loop
    ensures r.POk? ==> r.st.pos > st.pos && Shaped(r.value.0, rd, Context(rd, st, r.st)) == true
    ensures r.POk? && r.value.1.Some? ==> Shaped(r.value.1.value, rd, Context(rd, st, r.st)) == true
    ensures LoneBreak(toks, st.pos) ==>
              (r.POk? <==> st.loop > 0)
    decreases |toks| - st.pos, 79
  {
    var thenBranch := Statement(rd, toks, st);
    if thenBranch.PErr? { return PErr(thenBranch.st); }
    var elseBranch := ElseBranch(rd, toks, thenBranch.st);
    if elseBranch.PErr? { return PErr(elseBranch.st); }
    var ctx := Context(rd, st, elseBranch.st);
    ShapedMono(thenBranch.value, rd, Context(rd, st, thenBranch.st), ctx);
    if elseBranch.value.Some? {
      ShapedMono(elseBranch.value.value, rd, Context(rd, thenBranch.st, elseBranch.st), ctx);
    }
    r := POk((thenBranch.value, elseBranch.value), elseBranch.st);
  }

  /** The optional `else` branch of an `if`. */
  method ElseBranch(rd: Reading, toks: seq<Token>, st: PState) returns (r: Parsed<Option<Stmt>>)
    requires Pre(toks, st)
    ensures Moved(toks, st, r.st) && Reported(st, r)
    ensures Clean(rd, st, r.st) ==> r.st.loop == st.loop
    ensures r.POk? && r.value.Some? ==> Shaped(r.value.value, rd, Context(rd, st, r.st)) == true
    ensures toks[st.pos].kind != KwElse ==> r == POk(None, st)
    decreases |toks| - st.pos, 0
  {
    var (isElse, next) := Match(toks, st, {KwElse});
    if !isElse { return POk(None, st); }
    var e := Statement(rd, toks, next);
    r := if e.PErr? then PErr(e.st) else POk(Some(e.value), e.st);
  }

  /** `whileStatement`, after the keyword: the condition and the body, one
      loop level deeper. */
  method WhileStatement(rd: Reading, toks: seq<Token>, st: PState) returns (r: Parsed<Stmt>)
    requires Pre(toks, st)
    ensures StmtPost(rd, toks, st, r)
    ensures r.POk? ==> r.value.While?
    decreases |toks| - st.pos, 0
  {
    var level := BodyLevel(rd, KwWhile, st.loop);
    var cond := Condition(toks, st.(loop := level), true);
    if cond.PErr? { return PErr(Restore(rd, cond.st, st.loop)); }
    var body := LoopBody(rd, toks, cond.st.(loop := st.loop), level);
    if body.PErr? { return PErr(body.st); }
    r := POk(While(cond.value, body.value), body.st);
  }

  /** The three clauses of a `for` header. */
  datatype ForClauses = ForClauses(init: Option<Stmt>, cond: Option<Expr>, incr: Option<Expr>)

  /** A `for` initializer: a variable declaration or an expression
      statement. */
  predicate InitOk(s: Stmt) {
    (s.Var? && ExprOk(s.initializer)) || (s.Expression? && ExprOk(s.expression))
  }

  predicate ClausesOk(c: ForClauses) {
    && (c.init.Some? ==> InitOk(c.init.value))
    && (c.cond.Some? ==> ExprOk(c.cond.value))
    && (c.incr.Some? ==> ExprOk(c.incr.value))
  }

  /** The tokens `( ; ; )` from `pos`: the header of an endless `for`. */
  predicate EndlessHeader(toks: seq<Token>, pos: nat) {
    pos + 1 < |toks| && toks[pos].kind == LeftParen && toks[pos + 1].kind == Semicolon && EmptyClauses(toks, pos + 2)
  }

  /** The tokens `; )` from `pos`: no condition and no increment. */
  predicate EmptyClauses(toks: seq<Token>, pos: nat) {
    pos + 1 < |toks| && toks[pos].kind == Semicolon && toks[pos + 1].kind == RightParen
  }

  /** The tokens `( ; ; ) break ;` from `pos`: an endless `for` whose body
      leaves it at once. */
  predicate EndlessForBreak(toks: seq<Token>, pos: nat) {
    EndlessHeader(toks, pos) && BreakStatement(toks, pos + 4)
  }

  /** The header of `forStatement`, from `(` to `)`. */
  method ForHeader(toks: seq<Token>, st: PState) returns (r: Parsed<ForClauses>)
    requires Pre(toks, st)
    ensures Moved(toks, st, r.st) && r.st.loop == st.loop && Reported(st, r)
    ensures r.POk? ==> r.st.pos > st.pos && toks[r.st.pos - 1].kind == RightParen && ClausesOk(r.value)
    ensures EndlessHeader(toks, st.pos) ==> r == POk(ForClauses(None, None, None), st.(pos := st.pos + 4))
    ensures EndlessForBreak(toks, st.pos) ==> r.POk? && BreakStatement(toks, r.st.pos)
  {
    var open := Consume(toks, st, LeftParen, ExpectParenAfterFor);
    if open.PErr? { return PErr(open.st); }
    var init := ForInitializer(toks, open.st);
    if init.PErr? { return PErr(init.st); }
    r := ForTail(toks, init.st, init.value);
  }

  /** The condition and increment clauses of a `for` header, up to `)`. */
  method ForTail(toks: seq<Token>, st: PState, init: Option<Stmt>) returns (r: Parsed<ForClauses>)
    requires Pre(toks, st) && (init.Some? ==> InitOk(init.value))
    ensures Moved(toks, st, r.st) && r.st.loop == st.loop && Reported(st, r)
    ensures r.POk? ==> r.st.pos > st.pos && toks[r.st.pos - 1].kind == RightParen && ClausesOk(r.value)
    ensures r.POk? ==> r.value.init == init
    ensures EmptyClauses(toks, st.pos) ==>
              r == POk(ForClauses(init, None, None), st.(pos := st.pos + 2))
  {
    var cond := OptionalClause(toks, st, LoopCondition);
    if cond.PErr? { return PErr(cond.st); }
    var incr := OptionalClause(toks, cond.st, LoopIncrement);
    if incr.PErr? { return PErr(incr.st); }
    r := POk(ForClauses(init, cond.value, incr.value), incr.st);
  }

  /** The initializer clause of a `for`, with its `;`: nothing, a variable
      declaration or an expression statement. */
  method ForInitializer(toks: seq<Token>, st: PState) returns (r: Parsed<Option<Stmt>>)
    requires Pre(toks, st)
    ensures Moved(toks, st, r.st) && r.st.loop == st.loop && Reported(st, r)
    ensures r.POk? ==> r.st.pos > st.pos && toks[r.st.pos - 1].kind == Semicolon
    ensures r.POk? && r.value.Some? ==> InitOk(r.value.value)
    ensures toks[st.pos].kind == Semicolon ==> r == POk(None, st.(pos := st.pos + 1))
  {
    if Check(toks, st, Semicolon) {
      return POk(None, st.(pos := st.pos + 1));
    }
    var s: Parsed<Stmt>;
    if Check(toks, st, KwVar) {
      s := VarDeclaration(toks, st.(pos := st.pos + 1));
    } else {
      s := ExpressionStatement(toks, st);
    }
    r := if s.PErr? then PErr(s.st) else POk(Some(s.value), s.st);
  }

  /** The optional expressions closed by a fixed token: a `for` condition
      (closed by `;`), a `for` increment (closed by `)`) and a return value
      (closed by `;`). */
  datatype Clause = LoopCondition | LoopIncrement | ReturnValue

  function Closer(c: Clause): TokenType {
    if c == LoopIncrement then RightParen else Semicolon
  }

  function CloserMessage(c: Clause): Message {
    match c
    case LoopCondition => ExpectSemicolonAfterLoopCondition
    case LoopIncrement => ExpectParenAfterForClauses
    case ReturnValue => ExpectSemicolonAfterReturnValue
  }

  /** An optional clause: an expression unless its closer comes first, then
      the closer itself. */
  method OptionalClause(toks: seq<Token>, st: PState, clause: Clause) returns (r: Parsed<Option<Expr>>)
    requires Pre(toks, st)
    ensures Moved(toks, st, r.st) && r.st.loop == st.loop && Reported(st, r)
    ensures r.POk? ==> r.st.pos > st.pos && toks[r.st.pos - 1].kind == Closer(clause)
    ensures r.POk? && r.value.Some? ==> ExprOk(r.value.value)
    ensures toks[st.pos].kind == Closer(clause) ==> r == POk(None, st.(pos := st.pos + 1))
  {
    var value: Option<Expr> := None;
    var cur := st;
    if !Check(toks, st, Closer(clause)) {
      var e := ParseExpression(toks, st);
      if e.PErr? { return PErr(e.st); }
      value, cur := Some(e.value), e.st;
    }
    var close := Consume(toks, cur, Closer(clause), CloserMessage(clause));
    if close.PErr? { return PErr(close.st); }
    r := POk(value, close.st);
  }

  /** `forStatement`, after the keyword, desugared into a `while`. */
  method ForStatement(rd: Reading, toks: seq<Token>, st: PState) returns (r: Parsed<Stmt>)
    requires Pre(toks, st)
    ensures StmtPost(rd, toks, st, r)
    ensures r.POk? ==> r.value.While? || (r.value.Block? && |r.value.statements| == 2 && r.value.statements[1].While?)
    ensures r.POk? ==> exists c: ForClauses, body: Stmt, id: nat :: ClausesOk(c) && r.value == DesugarFor(c, body, id)
    ensures EndlessForBreak(toks, st.pos) ==> (r.POk? <==> BodyLevel(rd, KwFor, st.loop) > 0)
    decreases |toks| - st.pos, 0
  {
    var header := ForHeader(toks, st);
    if header.PErr? { return PErr(header.st); }
    r := ForBody(rd, toks, header.st, header.value);
    if r.POk? { ShapedMono(r.value, rd, false, Context(rd, st, r.st)); }
  }

  /** The rest of `forStatement` after its header: the body, one loop level
      deeper only in the intended reading, and the desugaring. */
  method ForBody(rd: Reading, toks: seq<Token>, st: PState, c: ForClauses) returns (r: Parsed<Stmt>)
    requires Pre(toks, st) && ClausesOk(c)
    ensures Moved(toks, st, r.st) && Reported(st, r)
    ensures Clean(rd, st, r.st) ==> r.st.loop == st.loop
    ensures r.POk? ==> r.st.pos > st.pos && Shaped(r.value, rd, false) == true
    ensures r.POk? ==> r.value.While? || (r.value.Block? && |r.value.statements| == 2 && r.value.statements[1].While?)
    ensures r.POk? ==> exists body: Stmt, id: nat :: r.value == DesugarFor(c, body, id)
    ensures BreakStatement(toks, st.pos) ==>
              (r.POk? <==> BodyLevel(rd, KwFor, st.loop) > 0)
    decreases |toks| - st.pos, 80
  {
    var body := LoopBody(rd, toks, st, BodyLevel(rd, KwFor, st.loop));
    if body.PErr? { return PErr(body.st); }
    var id := body.st.nextId;
    ForShaped(rd, c, body.value, id);
    r := POk(DesugarFor(c, body.value, id), body.st.(nextId := id + 1));
  }

  /** A loop body: a statement parsed at loop level `level`, the level put
      back afterwards (as written, only when nothing was thrown). Inside the
      loop it stands in, every `break` and `continue` of the body is in a
      loop. */
  method LoopBody(rd: Reading, toks: seq<Token>, st: PState, level: int) returns (r: Parsed<Stmt>)
    requires Pre(toks, st) && st.loop <= level
    ensures Moved(toks, st, r.st) && Reported(st, r)
    ensures Clean(rd, st, r.st) ==> r.st.loop == st.loop
    ensures r.POk? ==> r.st.pos > st.pos && Shaped(r.value, rd, true) == true
    ensures BreakStatement(toks, st.pos) ==> (r.POk? <==> level > 0)
    decreases |toks| - st.pos, 79
  {
    var body := Statement(rd, toks, st.(loop := level));
    if body.PErr? { return PErr(Restore(rd, body.st, st.loop)); }
    ShapedMono(body.value, rd, Context(rd, st.(loop := level), body.st), true);
    r := POk(body.value, body.st.(loop := body.st.loop - (level - st.loop)));
  }

  /** The `for` desugaring: the increment runs after the body in a block,
      a missing condition is the literal `true`, and an initializer goes
      in a block before the loop. */
  function DesugarFor(c: ForClauses, body: Stmt, trueId: nat): Stmt {
    var inner := if c.incr.Some? then Block([body, Stmt.Expression(c.incr.value)]) else body;
    var loop := While(if c.cond.Some? then c.cond.value else Literal(trueId, LBool(true)), inner);
    if c.init.Some? then Block([c.init.value, loop]) else loop
  }

  lemma ForShaped(rd: Reading, c: ForClauses, body: Stmt, id: nat)
    requires ClausesOk(c) && Shaped(body, rd, true) == true
    ensures Shaped(DesugarFor(c, body, id), rd, false)
  {
    var inner := if c.incr.Some? then Block([body, Stmt.Expression(c.incr.value)]) else body;
    assert Shaped(inner, rd, true) by {
      if c.incr.Some? {
        var ss := [body, Stmt.Expression(c.incr.value)];
        assert Shaped(ss[1], rd, true);
        assert AllShaped(ss, rd, true);
      }
    }
    var loop := While(if c.cond.Some? then c.cond.value else Literal(id, LBool(true)), inner);
    assert Shaped(loop, rd, false);
    if c.init.Some? {
      var ss := [c.init.value, loop];
      assert Shaped(ss[0], rd, false);
      assert AllShaped(ss, rd, false);
    }
  }

  /** `printStatement`, after the keyword. */
  method PrintStatement(toks: seq<Token>, st: PState) returns (r: Parsed<Stmt>)
    requires Pre(toks, st)
    ensures SimplePost(toks, st, r)
    ensures r.POk? ==> r.value.Print? && ExprOk(r.value.expression)
  {
    var value := ParseExpression(toks, st);
    if value.PErr? { return PErr(value.st); }
    var semi := Consume(toks, value.st, Semicolon, ExpectSemicolonAfterValue);
    if semi.PErr? { return PErr(semi.st); }
    r := POk(Print(value.value), semi.st);
  }

  /** `returnStatement`: the keyword is the token just consumed; the value
      is optional. */
  method ReturnStatement(toks: seq<Token>, st: PState) returns (r: Parsed<Stmt>)
    requires Pre(toks, st) && st.pos > 0
    ensures SimplePost(toks, st, r)
    ensures r.POk? ==> r.value.Return? && r.value.keyword == toks[st.pos - 1]
    ensures r.POk? && r.value.value.Some? ==> ExprOk(r.value.value.value)
    ensures toks[st.pos].kind == Semicolon ==> r.POk? && r.value == Return(toks[st.pos - 1], None) && r.st.pos == st.pos + 1
  {
    var value := OptionalClause(toks, st, ReturnValue);
    if value.PErr? { return PErr(value.st); }
    r := POk(Return(toks[st.pos - 1], value.value), value.st);
  }

  /** `varDeclaration`, after the keyword: a variable without an
      initializer is a thrown error reported at the token after the name. */
  method VarDeclaration(toks: seq<Token>, st: PState) returns (r: Parsed<Stmt>)
    requires Pre(toks, st)
    ensures SimplePost(toks, st, r)
    ensures r.POk? ==> r.value.Var? && r.value.name == toks[st.pos] && ExprOk(r.value.initializer)
    ensures r.POk? ==> toks[st.pos].kind == Identifier && toks[st.pos + 1].kind == Equal
    ensures toks[st.pos].kind == Identifier && toks[st.pos + 1].kind != Equal ==>
              r == PErr(Report(st.(pos := st.pos + 1), toks[st.pos + 1], NoInitializer(toks[st.pos])))
  {
    var name := Consume(toks, st, Identifier, ExpectVariableName);
    if name.PErr? { return PErr(name.st); }
    if !Check(toks, name.st, Equal) { return PErr(Report(name.st, toks[name.st.pos], NoInitializer(name.value))); }
    r := VarInitializer(toks, name.st.(pos := name.st.pos + 1), name.value);
  }

  /** The rest of `varDeclaration` after `=`: the initializer and the `;`. */
  method VarInitializer(toks: seq<Token>, st: PState, name: Token) returns (r: Parsed<Stmt>)
    requires Pre(toks, st)
    ensures SimplePost(toks, st, r)
    ensures r.POk? ==> r.value.Var? && r.value.name == name && ExprOk(r.value.initializer)
  {
    var init := ParseExpression(toks, st);
    if init.PErr? { return PErr(init.st); }
    var semi := Consume(toks, init.st, Semicolon, ExpectSemicolonAfterVar);
    if semi.PErr? { return PErr(semi.st); }
    r := POk(Var(name, init.value), semi.st);
  }

  /** `expressionStatement`. */
  method ExpressionStatement(toks: seq<Token>, st: PState) returns (r: Parsed<Stmt>)
    requires Pre(toks, st)
    ensures SimplePost(toks, st, r)
    ensures r.POk? ==> r.value.Expression? && ExprOk(r.value.expression)
  {
    var e := ParseExpression(toks, st);
    if e.PErr? { return PErr(e.st); }
    var semi := Consume(toks, e.st, Semicolon, ExpectSemicolonAfterExpression);
    if semi.PErr? { return PErr(semi.st); }
    r := POk(Stmt.Expression(e.value), semi.st);
  }

  // ---- the whole program ----------------------------------------------------

  datatype Program = Program(statements: seq<Stmt>, errors: seq<ParseError>)

  /** `parse`: declarations until the end-of-file token; those that failed
      are dropped and their errors kept. In the intended reading every
      `break` and `continue` of the result lies inside a loop; as written
      that holds, with `if` counted as a loop, whenever nothing was
      reported. */
  method Parse(rd: Reading, toks: seq<Token>) returns (p: Program)
    requires ValidTokens(toks)
    ensures AllShaped(p.statements, rd, rd == AsWritten && |p.errors| > 0)
    ensures |p.statements| < |toks|
  {
    var st0 := PState(0, 0, [], 0);
    var cur := st0;
    var acc: seq<Stmt> := [];
    while !AtEnd(toks, cur)
      invariant Moved(toks, st0, cur)
      invariant Clean(rd, st0, cur) ==> cur.loop == 0
      invariant AllShaped(acc, rd, Context(rd, st0, cur)) == true
      invariant |acc| <= cur.pos
      decreases |toks| - cur.pos
    {
      var d, next := Declaration(rd, toks, cur);
      AllShapedMono(acc, rd, Context(rd, st0, cur), Context(rd, st0, next));
      if d.Some? {
        ShapedMono(d.value, rd, Context(rd, cur, next), Context(rd, st0, next));
        acc := acc + [d.value];
      }
      cur := next;
    }
    p := Program(acc, cur.errors);
  }
}
