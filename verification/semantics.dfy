/** What the interpreter computes, stated against independent definitions:
    the logical operators against truthiness and against the conditional
    operator, binary expressions against the operator table, and the loop,
    block, `var` and call statements against what a reader of Lox expects
    of them. */
module Semantics {
  import opened Common
  import opened Tokens
  import opened Ast
  import opened Runtime
  import Environments
  import opened Values
  import opened Interpreter

  // ---------------------------------------------------------------------
  // Expressions

  /** `or` is truthy exactly when one of its operands is, `and` exactly
      when both are; a left operand that decides the result is the result,
      and the right operand is then never evaluated. */
  lemma LogicalTruthiness(fuel: nat, ctx: Ctx, st: State, left: Expr, op: Token, right: Expr)
    requires Valid(ctx, st)
    ensures var a := Evaluate(fuel, ctx, st, left);
            var r := EvalLogical(fuel, ctx, st, left, op, right);
            && (r.outcome.Normal? ==> a.outcome.Normal?)
            && (a.outcome.Normal? && (op.kind == KwOr) == IsTruthy(a.outcome.value) ==> r == a)
            && (a.outcome.Normal? && r.outcome.Normal? ==>
                  var b := Evaluate(fuel, ctx, a.st, right);
                  && (op.kind == KwOr ==>
                        (IsTruthy(r.outcome.value) <==>
                           IsTruthy(a.outcome.value) || (b.outcome.Normal? && IsTruthy(b.outcome.value))))
                  && (op.kind != KwOr ==>
                        (IsTruthy(r.outcome.value) <==>
                           IsTruthy(a.outcome.value) && b.outcome.Normal? && IsTruthy(b.outcome.value))))
  {
    var a := Evaluate(fuel, ctx, st, left);
    if a.outcome.Normal? && (op.kind == KwOr) != IsTruthy(a.outcome.value) {
      assert EvalLogical(fuel, ctx, st, left, op, right) == Evaluate(fuel, ctx, a.st, right);
    }
  }

  /** With a literal on the left, `l or e` is `l ? l : e` and `l and e` is
      `l ? e : l`. */
  lemma LogicalIsConditional(fuel: nat, ctx: Ctx, st: State, id: nat, i: nat, lit: LitValue, op: Token, e: Expr)
    requires Valid(ctx, st)
    ensures var l := Literal(i, lit);
            Evaluate(fuel + 2, ctx, st, Logical(id, l, op, e))
            == Evaluate(fuel + 2, ctx, st, if op.kind == KwOr then Ternary(id, l, l, e) else Ternary(id, l, e, l))
  {
    var l := Literal(i, lit);
    assert Evaluate(fuel + 1, ctx, st, l) == Res(Normal(LiteralValue(lit)), st);
  }

  /** The conditional operator with a literal condition evaluates exactly
      the branch the condition's truthiness selects. */
  lemma TernarySelects(fuel: nat, ctx: Ctx, st: State, id: nat, i: nat, lit: LitValue, t: Expr, f: Expr)
    requires Valid(ctx, st)
    ensures Evaluate(fuel + 2, ctx, st, Ternary(id, Literal(i, lit), t, f))
            == Evaluate(fuel + 1, ctx, st, if IsTruthy(LiteralValue(lit)) then t else f)
  {
    assert Evaluate(fuel + 1, ctx, st, Literal(i, lit)) == Res(Normal(LiteralValue(lit)), st);
  }

  /** A comma expression whose left side has no effect is its right side. */
  lemma CommaDiscardsLeft(fuel: nat, ctx: Ctx, st: State, id: nat, i: nat, lit: LitValue, e: Expr)
    requires Valid(ctx, st)
    ensures Evaluate(fuel + 2, ctx, st, Expr.Comma(id, Literal(i, lit), e)) == Evaluate(fuel + 1, ctx, st, e)
  {
    assert Evaluate(fuel + 1, ctx, st, Literal(i, lit)) == Res(Normal(LiteralValue(lit)), st);
  }

  /** `!!e` is the truthiness of `e` as a boolean. */
  lemma DoubleNegation(fuel: nat, ctx: Ctx, st: State, i: nat, j: nat, bang: Token, e: Expr)
    requires Valid(ctx, st) && bang.kind == Bang
    ensures var a := Evaluate(fuel, ctx, st, e);
            var r := Evaluate(fuel + 2, ctx, st, Unary(i, bang, Unary(j, bang, e)));
            && (r.outcome.Normal? <==> a.outcome.Normal?)
            && (a.outcome.Normal? ==> r == Res(Normal(Bool(IsTruthy(a.outcome.value))), a.st))
  {
    var a := Evaluate(fuel, ctx, st, e);
    var inner := Evaluate(fuel + 1, ctx, st, Unary(j, bang, e));
    assert inner == EvalUnary(fuel, ctx, st, bang, e);
    assert Evaluate(fuel + 2, ctx, st, Unary(i, bang, Unary(j, bang, e)))
        == EvalUnary(fuel + 1, ctx, st, bang, Unary(j, bang, e));
    if a.outcome.Normal? {
      assert inner == Res(Normal(Bool(!IsTruthy(a.outcome.value))), a.st);
    } else {
      assert inner == a;
    }
  }

  /** A binary expression over two literals is the operator table applied
      to their values, and changes nothing. */
  lemma BinaryOfLiterals(fuel: nat, ctx: Ctx, st: State, id: nat, i: nat, x: LitValue, op: Token, j: nat, y: LitValue)
    requires Valid(ctx, st)
    ensures var r := Evaluate(fuel + 2, ctx, st, Binary(id, Literal(i, x), op, Literal(j, y)));
            && r.st == st
            && r.outcome == match BinaryOp(op, LiteralValue(x), LiteralValue(y))
                            case Ok(v) => Normal(v)
                            case Err(err) => Thrown(err)
  {
    assert Evaluate(fuel + 1, ctx, st, Literal(i, x)) == Res(Normal(LiteralValue(x)), st);
    assert Evaluate(fuel + 1, ctx, st, Literal(j, y)) == Res(Normal(LiteralValue(y)), st);
  }

  // ---------------------------------------------------------------------
  // Statements

  /** An `if` with a literal condition runs exactly the branch the
      condition's truthiness selects, and nothing when it selects a missing
      `else`; the branch's abrupt outcomes pass through, but a completed
      branch leaves no result value. */
  lemma IfSelects(fuel: nat, ctx: Ctx, st: State, i: nat, lit: LitValue, t: Stmt, e: Option<Stmt>)
    requires Valid(ctx, st)
    ensures var r := Execute(fuel + 2, ctx, st, If(Literal(i, lit), t, e));
            var truthy := IsTruthy(LiteralValue(lit));
            && (!truthy && e.None? ==> r == Res(Done(None), st))
            && (truthy || e.Some? ==>
                  var b := Execute(fuel + 1, ctx, st, if truthy then t else e.value);
                  && r.st == b.st
                  && (b.outcome.Done? ==> r.outcome == Done(None))
                  && (!b.outcome.Done? ==> r.outcome == b.outcome))
  {
    assert Evaluate(fuel + 1, ctx, st, Literal(i, lit)) == Res(Normal(LiteralValue(lit)), st);
  }

  /** An `if` on any condition: an abrupt condition is the statement's
      outcome; otherwise exactly the branch the condition's truthiness
      selects runs, in the state the condition left, and nothing runs when
      it selects a missing `else`. */
  lemma IfSelectsBranch(fuel: nat, ctx: Ctx, st: State, c: Expr, t: Stmt, e: Option<Stmt>)
    requires Valid(ctx, st)
    ensures var a := Evaluate(fuel, ctx, st, c);
            var r := Execute(fuel + 1, ctx, st, If(c, t, e));
            && (!a.outcome.Normal? ==> r == a)
            && (a.outcome.Normal? && !IsTruthy(a.outcome.value) && e.None? ==> r == Res(Done(None), a.st))
            && (a.outcome.Normal? && (IsTruthy(a.outcome.value) || e.Some?) ==>
                  var b := Execute(fuel, ctx, a.st, if IsTruthy(a.outcome.value) then t else e.value);
                  && r.st == b.st
                  && (b.outcome.Done? ==> r.outcome == Done(None))
                  && (!b.outcome.Done? ==> r.outcome == b.outcome))
  {
  }

  /** A loop whose condition is a falsy literal runs no iteration. */
  lemma FalseLoopDoesNothing(fuel: nat, ctx: Ctx, st: State, i: nat, lit: LitValue, body: Stmt)
    requires Valid(ctx, st) && !IsTruthy(LiteralValue(lit))
    ensures Execute(fuel + 2, ctx, st, While(Literal(i, lit), body)) == Res(Done(None), st)
  {
    assert Evaluate(fuel + 1, ctx, st, Literal(i, lit)) == Res(Normal(LiteralValue(lit)), st);
  }

  /** `while (true) break;` stops after the first iteration. */
  lemma BreakEndsLoop(fuel: nat, ctx: Ctx, st: State, i: nat)
    requires Valid(ctx, st)
    ensures Execute(fuel + 2, ctx, st, While(Literal(i, LBool(true)), Break)) == Res(Done(None), st)
  {
    assert Evaluate(fuel + 1, ctx, st, Literal(i, LBool(true))) == Res(Normal(Bool(true)), st);
    assert Execute(fuel + 1, ctx, st, Break) == Res(BreakSignal, st);
  }

  /** `while (true) continue;` never completes: whatever the fuel, the loop
      runs until it is exhausted, and nothing else happens. */
  lemma {:induction false} ContinueLoopsForever(fuel: nat, ctx: Ctx, st: State, i: nat)
    requires Valid(ctx, st)
    ensures WhileLoop(fuel, ctx, st, Literal(i, LBool(true)), Continue) == Res(OutOfFuel, st)
    decreases fuel
  {
    if fuel > 0 {
      assert Evaluate(fuel, ctx, st, Literal(i, LBool(true))) == Res(Normal(Bool(true)), st);
      assert Execute(fuel, ctx, st, Continue) == Res(ContinueSignal, st);
      ContinueLoopsForever(fuel - 1, ctx, st, i);
    }
  }

  /** The body `for` builds from a body and an increment is the block
      `{ body; increment; }`: a `continue` in the body leaves the block
      before the increment runs, so the increment is skipped for that
      iteration and nothing is printed or changed in the enclosing scope. */
  lemma ContinueSkipsIncrement(fuel: nat, ctx: Ctx, st: State, increment: Expr)
    requires Valid(ctx, st)
    ensures var r := Execute(fuel + 2, ctx, st, Block([Continue, Expression(increment)]));
            && r.outcome == ContinueSignal
            && r.st.out == st.out
            && r.st.heap.frames[st.env] == st.heap.frames[st.env]
  {
    var (h1, env) := NewFrame(st.heap, map[], Some(st.env));
    var inner := State(h1, env, st.out);
    assert Execute(fuel + 1, ctx, inner, Continue) == Res(ContinueSignal, inner);
    assert ExecSeq(fuel + 1, ctx, inner, [Continue, Expression(increment)], None) == Res(ContinueSignal, inner);
  }

  /** A variable declared inside a block does not outlive it: the
      enclosing scope is exactly as before. */
  lemma BlockScopeIsLocal(fuel: nat, ctx: Ctx, st: State, name: Token, i: nat, lit: LitValue)
    requires Valid(ctx, st)
    ensures var r := Execute(fuel + 3, ctx, st, Block([Var(name, Literal(i, lit))]));
            && r.outcome == Done(None)
            && r.st.env == st.env
            && r.st.heap.frames[st.env] == st.heap.frames[st.env]
  {
    var (h1, env) := NewFrame(st.heap, map[], Some(st.env));
    var inner := State(h1, env, st.out);
    assert Evaluate(fuel + 1, ctx, inner, Literal(i, lit)) == Res(Normal(LiteralValue(lit)), inner);
    var h2 := Environments.Define(h1, env, name.lexeme, LiteralValue(lit));
    assert Execute(fuel + 2, ctx, inner, Var(name, Literal(i, lit))) == Res(Done(None), inner.(heap := h2));
    assert ExecSeq(fuel + 2, ctx, inner, [Var(name, Literal(i, lit))], None) == Res(Done(None), inner.(heap := h2));
  }

  /** A global declared with `var` reads back as its initial value through
      an unresolved variable expression. */
  lemma VarThenRead(fuel: nat, ctx: Ctx, st: State, name: Token, i: nat, lit: LitValue, id: nat)
    requires Valid(ctx, st) && st.env == ctx.globals && id !in ctx.locals
    ensures var r := Execute(fuel + 2, ctx, st, Var(name, Literal(i, lit)));
            && r.outcome == Done(None)
            && Evaluate(fuel + 1, ctx, r.st, Variable(id, name)) == Res(Normal(LiteralValue(lit)), r.st)
  {
    assert Evaluate(fuel + 1, ctx, st, Literal(i, lit)) == Res(Normal(LiteralValue(lit)), st);
    var h := Environments.Define(st.heap, st.env, name.lexeme, LiteralValue(lit));
    Environments.DefineThenGet(st.heap, st.env, name, name.(lexeme := name.lexeme + "'"), LiteralValue(lit));
    assert Environments.Get(h, ctx.globals, name) == Ok(LiteralValue(lit));
  }

  /** `print` of a literal appends the literal's text to the output and
      changes nothing else. */
  lemma PrintLiteral(fuel: nat, ctx: Ctx, st: State, i: nat, lit: LitValue)
    requires Valid(ctx, st)
    ensures Execute(fuel + 2, ctx, st, Print(Literal(i, lit)))
            == Res(Done(None), st.(out := st.out + [Stringify(st.heap, LiteralValue(lit))]))
  {
    assert Evaluate(fuel + 1, ctx, st, Literal(i, lit)) == Res(Normal(LiteralValue(lit)), st);
  }

  // ---------------------------------------------------------------------
  // Calls

  /** A function that returns a literal yields its value when called; an
      initializer yields its `this` instead. */
  lemma ReturnYieldsValue(fuel: nat, ctx: Ctx, st: State, f: LoxFunction, kw: Token, i: nat, lit: LitValue)
    requires Valid(ctx, st) && FunctionOk(st.heap, f) && !f.isInitializer
    requires f.declaration.params == [] && f.declaration.body == [Return(kw, Some(Literal(i, lit)))]
    ensures CallFunction(fuel + 2, ctx, st, f, []).outcome == Normal(LiteralValue(lit))
  {
    BindingsOk(st.heap, [], []);
    var (h1, env) := NewFrame(st.heap, map[], Some(f.closure));
    var inner := State(h1, env, st.out);
    assert Evaluate(fuel + 1, ctx, inner, Literal(i, lit)) == Res(Normal(LiteralValue(lit)), inner);
    assert Execute(fuel + 2, ctx, inner, Return(kw, Some(Literal(i, lit)))) == Res(ReturnSignal(LiteralValue(lit)), inner);
  }

  /** A function whose body falls off its end yields nil. */
  lemma EmptyBodyYieldsNil(fuel: nat, ctx: Ctx, st: State, f: LoxFunction)
    requires Valid(ctx, st) && FunctionOk(st.heap, f) && !f.isInitializer
    requires f.declaration.params == [] && f.declaration.body == []
    ensures CallFunction(fuel, ctx, st, f, []).outcome == Normal(Nil)
  {
    BindingsOk(st.heap, [], []);
  }

  /** `break` in a function body is not caught by the call: it escapes to
      the caller, where an enclosing loop of the caller would end. */
  lemma BreakEscapesCall(fuel: nat, ctx: Ctx, st: State, f: LoxFunction)
    requires Valid(ctx, st) && FunctionOk(st.heap, f)
    requires f.declaration.params == [] && f.declaration.body == [Break]
    ensures CallFunction(fuel + 1, ctx, st, f, []).outcome == BreakSignal
  {
    BindingsOk(st.heap, [], []);
    var (h1, env) := NewFrame(st.heap, map[], Some(f.closure));
    assert Execute(fuel + 1, ctx, State(h1, env, st.out), Break) == Res(BreakSignal, State(h1, env, st.out));
  }
}
