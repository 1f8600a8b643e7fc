/** The tree-walking interpreter: expression evaluation, statement
    execution, calls of functions and classes, and `interpret`.

    JavaScript exceptions become outcomes: `BreakSignal`, `ContinueSignal`
    and `ReturnSignal` stand for the three control-flow exceptions,
    `Thrown` for a Lox `RuntimeError`, and `Fault` for the cases where the
    source leaves the Lox value domain (a `TypeError` from walking past the
    end of the scope chain, or `undefined` read from a scope that lacks the
    resolved name). Recursion is bounded by a fuel parameter; running out
    of it is `OutOfFuel`, which the source has no counterpart for. */
module Interpreter {
  import opened Common
  import opened Tokens
  import opened Ast
  import opened Runtime
  import opened Environments
  import opened Callables
  import opened Values

  /** What stays fixed while a program runs: the globals frame and the
      resolver's table from expression id to scope distance. */
  datatype Ctx = Ctx(globals: nat, locals: map<nat, nat>)

  /** The heap, the current environment, and the lines printed so far. */
  datatype State = State(heap: Heap, env: nat, out: seq<string>)

  datatype Outcome =
    | Normal(value: Value)          // an expression's value
    | Done(last: Option<Value>)     // a statement's `Value | undefined`
    | BreakSignal
    | ContinueSignal
    | ReturnSignal(value: Value)
    | Thrown(error: RuntimeError)
    | Fault
    | OutOfFuel

  datatype Res = Res(outcome: Outcome, st: State)

  /** Outcome of evaluating an argument list: the values, or the abrupt
      outcome of the argument that stopped the evaluation. */
  datatype ArgsRes = ArgsRes(abrupt: Option<Outcome>, values: seq<Value>, st: State)

  predicate Valid(ctx: Ctx, st: State) {
    Live(st.heap, st.env) && ctx.globals < |st.heap.frames|
  }

  predicate OutcomeOk(h: Heap, o: Outcome) {
    match o
    case Normal(v) => ValueOk(h, v)
    case Done(last) => last.Some? ==> ValueOk(h, last.value)
    case ReturnSignal(v) => ValueOk(h, v)
    case _ => true
  }

  /** What every step of the interpreter guarantees: the state stays valid,
      the current environment is restored (`executeBlock` restores it in a
      `finally`, the class statement pops its `super` scope), the heap only
      evolves, output is only appended to, and returned values are live. */
  predicate Step(ctx: Ctx, st: State, r: Res) {
    && Valid(ctx, r.st)
    && r.st.env == st.env
    && Evolves(st.heap, r.st.heap)
    && st.out <= r.st.out
    && OutcomeOk(r.st.heap, r.outcome)
  }

  /** An expression yields a value or an abrupt outcome, never a statement
      completion and never a `return` (calls catch it). */
  predicate ExprStep(ctx: Ctx, st: State, r: Res) {
    Step(ctx, st, r) && !r.outcome.Done? && !r.outcome.ReturnSignal?
  }

  /** A statement completes or is abrupt; it never yields a bare value. */
  predicate StmtStep(ctx: Ctx, st: State, r: Res) {
    Step(ctx, st, r) && !r.outcome.Normal?
  }

  // ---------------------------------------------------------------------
  // Variables

  /** `lookUpVariable`: a resolved expression reads the scope at its
      distance, an unresolved one is a global looked up with `get`. */
  function LookUpVariable(ctx: Ctx, st: State, name: Token, id: nat): (r: Outcome)
    requires Valid(ctx, st)
    ensures OutcomeOk(st.heap, r) && (r.Normal? || r.Thrown? || r.Fault?)
    ensures id !in ctx.locals ==>
      (r.Normal? <==> Environments.Get(st.heap, ctx.globals, name).Ok?)
      && (r.Normal? ==> r.value == Environments.Get(st.heap, ctx.globals, name).value)
    ensures id in ctx.locals ==>
      (r.Normal? <==> ctx.locals[id] <= Depth(st.heap, st.env)
                      && HoldsAt(st.heap, st.env, ctx.locals[id], name.lexeme))
    ensures r.Thrown? ==> r.error == RuntimeError(name, "undefined variable '" + name.lexeme + "'.")
  {
    if id in ctx.locals then
      var d := ctx.locals[id];
      if d > Depth(st.heap, st.env) then Fault
      else match GetAt(st.heap, st.env, d, name.lexeme)
        case None => Fault
        case Some(v) => Normal(v)
    else match Environments.Get(st.heap, ctx.globals, name)
      case Ok(v) => Normal(v)
      case Err(e) => Thrown(e)
  }

  /** The store update of `visitAssignExpr`: `assignAt` for a resolved
      expression, `globals.assign` otherwise. */
  function AssignVariable(ctx: Ctx, st: State, name: Token, id: nat, v: Value): (r: Res)
    requires Valid(ctx, st) && ValueOk(st.heap, v)
    ensures Step(ctx, st, r) && r.st.out == st.out
    ensures r.outcome.Normal? || r.outcome.Thrown? || r.outcome.Fault?
    ensures r.outcome.Normal? ==> r.outcome.value == v
    ensures id !in ctx.locals ==>
      (r.outcome.Thrown? <==> Environments.Get(st.heap, ctx.globals, name).Err?)
    ensures id in ctx.locals ==>
      (r.outcome.Fault? <==> ctx.locals[id] > Depth(st.heap, st.env))
    ensures r.outcome.Thrown? ==>
      r.outcome.error == RuntimeError(name, "Undefined variable '" + name.lexeme + "'.")
  {
    if id in ctx.locals then
      var d := ctx.locals[id];
      if d > Depth(st.heap, st.env) then Res(Fault, st)
      else Res(Normal(v), st.(heap := AssignAt(st.heap, st.env, d, name.lexeme, v)))
    else
      AssignIsAssignAtInnermost(st.heap, ctx.globals, name, v);
      match Environments.Assign(st.heap, ctx.globals, name, v)
      case Ok(h) => Res(Normal(v), st.(heap := h))
      case Err(e) => Res(Thrown(e), st)
  }

  // ---------------------------------------------------------------------
  // Expressions

  function Evaluate(fuel: nat, ctx: Ctx, st: State, e: Expr): (r: Res)
    requires Valid(ctx, st)
    ensures ExprStep(ctx, st, r)
    decreases fuel, 0, 0
  {
    if fuel == 0 then Res(OutOfFuel, st)
    else
      var f := fuel - 1;
      match e
      case Literal(_, lit) => Res(Normal(LiteralValue(lit)), st)
      case Grouping(_, inner) => Evaluate(f, ctx, st, inner)
      case Variable(id, name) => Res(LookUpVariable(ctx, st, name, id), st)
      case This(id, keyword) => Res(LookUpVariable(ctx, st, keyword, id), st)
      case Assign(id, name, value) => EvalAssign(f, ctx, st, id, name, value)
      case Unary(_, op, right) => EvalUnary(f, ctx, st, op, right)
      case Binary(_, left, op, right) => EvalBinary(f, ctx, st, left, op, right)
      case Logical(_, left, op, right) => EvalLogical(f, ctx, st, left, op, right)
      case Comma(_, left, right) => EvalComma(f, ctx, st, left, right)
      case Ternary(_, cond, truthy, falsey) => EvalTernary(f, ctx, st, cond, truthy, falsey)
      case Get(_, obj, name) => EvalGet(f, ctx, st, obj, name)
      case Set(_, obj, name, value) => EvalSet(f, ctx, st, obj, name, value)
      case Super(id, _, methodName) => EvalSuper(ctx, st, id, methodName)
      case Call(_, callee, paren, args) => EvalCall(f, ctx, st, callee, paren, args)
  }

  /** `visitAssignExpr`: the value is evaluated first, then stored. */
  function EvalAssign(fuel: nat, ctx: Ctx, st: State, id: nat, name: Token, value: Expr): (r: Res)
    requires Valid(ctx, st)
    ensures ExprStep(ctx, st, r)
    ensures var a := Evaluate(fuel, ctx, st, value);
      r.outcome.Normal? ==> a.outcome.Normal? && r.outcome.value == a.outcome.value
    decreases fuel, 1, 0
  {
    var a := Evaluate(fuel, ctx, st, value);
    if !a.outcome.Normal? then a
    else
      var b := AssignVariable(ctx, a.st, name, id, a.outcome.value);
      EvolvesTransitive(st.heap, a.st.heap, b.st.heap);
      b
  }

  function EvalUnary(fuel: nat, ctx: Ctx, st: State, op: Token, right: Expr): (r: Res)
    requires Valid(ctx, st)
    ensures ExprStep(ctx, st, r)
    decreases fuel, 1, 0
  {
    var a := Evaluate(fuel, ctx, st, right);
    if !a.outcome.Normal? then a
    else match UnaryOp(op, a.outcome.value)
      case Ok(v) => Res(Normal(v), a.st)
      case Err(err) => Res(Thrown(err), a.st)
  }

  /** `visitBinaryExpr`: both operands are evaluated, left first, before
      any type check. */
  function EvalBinary(fuel: nat, ctx: Ctx, st: State, left: Expr, op: Token, right: Expr): (r: Res)
    requires Valid(ctx, st)
    ensures ExprStep(ctx, st, r)
    decreases fuel, 1, 0
  {
    var a := Evaluate(fuel, ctx, st, left);
    if !a.outcome.Normal? then a
    else
      var b := Evaluate(fuel, ctx, a.st, right);
      EvolvesTransitive(st.heap, a.st.heap, b.st.heap);
      if !b.outcome.Normal? then b
      else match BinaryOp(op, a.outcome.value, b.outcome.value)
        case Ok(v) => Res(Normal(v), b.st)
        case Err(err) => Res(Thrown(err), b.st)
  }

  /** `visitLogicalExpr`: `or` returns a truthy left operand, any other
      operator returns a falsy one; only otherwise is the right operand
      evaluated, and its value is the result. */
  function EvalLogical(fuel: nat, ctx: Ctx, st: State, left: Expr, op: Token, right: Expr): (r: Res)
    requires Valid(ctx, st)
    ensures ExprStep(ctx, st, r)
    decreases fuel, 1, 0
  {
    var a := Evaluate(fuel, ctx, st, left);
    if !a.outcome.Normal? then a
    else if op.kind == KwOr && IsTruthy(a.outcome.value) then a
    else if op.kind != KwOr && !IsTruthy(a.outcome.value) then a
    else
      var b := Evaluate(fuel, ctx, a.st, right);
      EvolvesTransitive(st.heap, a.st.heap, b.st.heap);
      b
  }

  /** `visitCommaExpr`: the left value is discarded. */
  function EvalComma(fuel: nat, ctx: Ctx, st: State, left: Expr, right: Expr): (r: Res)
    requires Valid(ctx, st)
    ensures ExprStep(ctx, st, r)
    decreases fuel, 1, 0
  {
    var a := Evaluate(fuel, ctx, st, left);
    if !a.outcome.Normal? then a
    else
      var b := Evaluate(fuel, ctx, a.st, right);
      EvolvesTransitive(st.heap, a.st.heap, b.st.heap);
      b
  }

  /** `visitTernaryExpr`: exactly one branch is evaluated. */
  function EvalTernary(fuel: nat, ctx: Ctx, st: State, cond: Expr, truthy: Expr, falsey: Expr): (r: Res)
    requires Valid(ctx, st)
    ensures ExprStep(ctx, st, r)
    decreases fuel, 1, 0
  {
    var a := Evaluate(fuel, ctx, st, cond);
    if !a.outcome.Normal? then a
    else
      var b := Evaluate(fuel, ctx, a.st, if IsTruthy(a.outcome.value) then truthy else falsey);
      EvolvesTransitive(st.heap, a.st.heap, b.st.heap);
      b
  }

  /** `visitGetExpr`: only instances have properties. */
  function EvalGet(fuel: nat, ctx: Ctx, st: State, obj: Expr, name: Token): (r: Res)
    requires Valid(ctx, st)
    ensures ExprStep(ctx, st, r)
    ensures var a := Evaluate(fuel, ctx, st, obj);
      a.outcome.Normal? && !(a.outcome.value.Obj? && IsInstance(a.st.heap, a.outcome.value.ref)) ==>
        r == Res(Thrown(RuntimeError(name, "Only instances have properties.")), a.st)
    ensures var a := Evaluate(fuel, ctx, st, obj);
      a.outcome.Normal? && a.outcome.value.Obj? && IsInstance(a.st.heap, a.outcome.value.ref) ==>
        var g := InstanceGet(a.st.heap, a.outcome.value.ref, name);
        && (g.Ok? ==> r.outcome == Normal(g.value.1) && r.st == a.st.(heap := g.value.0))
        && (g.Err? ==> r == Res(Thrown(g.error), a.st))
    decreases fuel, 1, 0
  {
    var a := Evaluate(fuel, ctx, st, obj);
    if !a.outcome.Normal? then a
    else if a.outcome.value.Obj? && IsInstance(a.st.heap, a.outcome.value.ref) then
      match InstanceGet(a.st.heap, a.outcome.value.ref, name)
      case Ok((h, v)) =>
        EvolvesTransitive(st.heap, a.st.heap, h);
        Res(Normal(v), a.st.(heap := h))
      case Err(err) => Res(Thrown(err), a.st)
    else Res(Thrown(RuntimeError(name, "Only instances have properties.")), a.st)
  }

  /** `visitSetExpr`: the object is checked to be an instance before the
      value is evaluated; the result is the assigned value. */
  function EvalSet(fuel: nat, ctx: Ctx, st: State, obj: Expr, name: Token, value: Expr): (r: Res)
    requires Valid(ctx, st)
    ensures ExprStep(ctx, st, r)
    ensures var a := Evaluate(fuel, ctx, st, obj);
      a.outcome.Normal? && !(a.outcome.value.Obj? && IsInstance(a.st.heap, a.outcome.value.ref)) ==>
        r == Res(Thrown(RuntimeError(name, "Only instances have fields.")), a.st)
    ensures var a := Evaluate(fuel, ctx, st, obj);
      a.outcome.Normal? && a.outcome.value.Obj? && IsInstance(a.st.heap, a.outcome.value.ref) ==>
        var b := Evaluate(fuel, ctx, a.st, value);
        var i := a.outcome.value.ref;
        && (!b.outcome.Normal? ==> r == b)
        && (b.outcome.Normal? ==>
              && r.outcome == Normal(b.outcome.value)
              && WellFormed(b.st.heap) && IsInstance(b.st.heap, i) && ValueOk(b.st.heap, b.outcome.value)
              && r.st == b.st.(heap := InstanceSet(b.st.heap, i, name.lexeme, b.outcome.value)))
    decreases fuel, 1, 0
  {
    var a := Evaluate(fuel, ctx, st, obj);
    if !a.outcome.Normal? then a
    else if !(a.outcome.value.Obj? && IsInstance(a.st.heap, a.outcome.value.ref)) then
      Res(Thrown(RuntimeError(name, "Only instances have fields.")), a.st)
    else
      var b := Evaluate(fuel, ctx, a.st, value);
      EvolvesTransitive(st.heap, a.st.heap, b.st.heap);
      if !b.outcome.Normal? then b
      else
        var i := a.outcome.value.ref;
        assert Persists(a.st.heap.objects[i], b.st.heap.objects[i]);
        var h := InstanceSet(b.st.heap, i, name.lexeme, b.outcome.value);
        EvolvesTransitive(st.heap, b.st.heap, h);
        Res(Normal(b.outcome.value), b.st.(heap := h))
  }

  /** `visitSuperExpr`: the superclass is read at the resolved distance and
      `this` one scope nearer; an unresolved `super` reads both from the
      current scope, since the source's loop over an `undefined` distance
      never runs. A method the superclass chain lacks is the "Undefined
      property" error; otherwise the method bound to `this`. */
  function EvalSuper(ctx: Ctx, st: State, id: nat, methodName: Token): (r: Res)
    requires Valid(ctx, st)
    ensures ExprStep(ctx, st, r) && r.st.env == st.env && r.st.out == st.out
    ensures r.outcome.Thrown? ==>
      r.outcome.error == RuntimeError(methodName, "Undefined property '" + methodName.lexeme + "'.")
    ensures r.outcome.Normal? ==>
      r.outcome.value == Obj(|st.heap.objects|) && r.st.heap.objects[|st.heap.objects|].FunctionObj?
  {
    var h := st.heap;
    var d := if id in ctx.locals then ctx.locals[id] else 0;
    if d > Depth(h, st.env) then Res(Fault, st)
    else match GetAt(h, st.env, d, "super")
      case Some(Obj(c)) =>
        if !IsClass(h, c) then Res(Fault, st)
        else
          var self := GetAt(h, st.env, if d == 0 then 0 else d - 1, "this");
          (match FindMethod(h, c, methodName.lexeme)
          case None =>
            Res(Thrown(RuntimeError(methodName, "Undefined property '" + methodName.lexeme + "'.")), st)
          case Some(m) =>
            if self.None? then Res(Fault, st)
            else
              var (h1, bound) := Bind(h, m, self.value);
              var (h2, ref) := Alloc(h1, FunctionObj(bound));
              EvolvesTransitive(h, h1, h2);
              Res(Normal(Obj(ref)), st.(heap := h2)))
      case _ => Res(Fault, st)
  }

  /** `visitCallExpr`: callee, then the arguments left to right, then the
      callable and arity checks, then the call. */
  function EvalCall(fuel: nat, ctx: Ctx, st: State, callee: Expr, paren: Token, args: seq<Expr>): (r: Res)
    requires Valid(ctx, st)
    ensures ExprStep(ctx, st, r)
    decreases fuel, 5, 0
  {
    var a := Evaluate(fuel, ctx, st, callee);
    if !a.outcome.Normal? then a
    else
      var b := EvalArgs(fuel, ctx, a.st, args);
      EvolvesTransitive(st.heap, a.st.heap, b.st.heap);
      if b.abrupt.Some? then Res(b.abrupt.value, b.st)
      else
        var c := CallValue(fuel, ctx, b.st, a.outcome.value, b.values, paren);
        EvolvesTransitive(st.heap, b.st.heap, c.st.heap);
        c
  }

  /** The arguments of a call, left to right, stopping at the first abrupt
      outcome. */
  function EvalArgs(fuel: nat, ctx: Ctx, st: State, args: seq<Expr>): (r: ArgsRes)
    requires Valid(ctx, st)
    ensures Valid(ctx, r.st) && r.st.env == st.env && Evolves(st.heap, r.st.heap) && st.out <= r.st.out
    ensures r.abrupt.Some? ==>
      var o := r.abrupt.value; !o.Normal? && !o.Done? && !o.ReturnSignal? && OutcomeOk(r.st.heap, o)
    ensures r.abrupt.None? ==> |r.values| == |args| && SeqValuesOk(r.st.heap, r.values)
    decreases fuel, 1, |args|
  {
    if |args| == 0 then ArgsRes(None, [], st)
    else
      var a := Evaluate(fuel, ctx, st, args[0]);
      if !a.outcome.Normal? then ArgsRes(Some(a.outcome), [], a.st)
      else
        var rest := EvalArgs(fuel, ctx, a.st, args[1..]);
        EvolvesTransitive(st.heap, a.st.heap, rest.st.heap);
        ArgsRes(rest.abrupt, [a.outcome.value] + rest.values, rest.st)
  }

  /** The checks `visitCallExpr` makes on the callee and the argument count,
      then `call`. */
  function CallValue(fuel: nat, ctx: Ctx, st: State, callee: Value, args: seq<Value>, paren: Token): (r: Res)
    requires Valid(ctx, st) && ValueOk(st.heap, callee) && SeqValuesOk(st.heap, args)
    ensures ExprStep(ctx, st, r)
    ensures !IsCallable(st.heap, callee) ==>
      r == Res(Thrown(RuntimeError(paren, "Can only call functions and classes.")), st)
    ensures IsCallable(st.heap, callee) && |args| != Arity(st.heap, callee) ==>
      r == Res(Thrown(RuntimeError(paren, "Expected " + NatToString(Arity(st.heap, callee))
                                          + " arguments but got " + NatToString(|args|) + ".")), st)
    decreases fuel, 4, 0
  {
    var h := st.heap;
    if !IsCallable(h, callee) then
      Res(Thrown(RuntimeError(paren, "Can only call functions and classes.")), st)
    else if |args| != Arity(h, callee) then
      Res(Thrown(RuntimeError(paren, "Expected " + NatToString(Arity(h, callee))
                                     + " arguments but got " + NatToString(|args|) + ".")), st)
    else
      assert ObjectOk(h, callee.ref);
      match h.objects[callee.ref]
      case FunctionObj(f) => CallFunction(fuel, ctx, st, f, args)
      case ClassObj(_) => CallClass(fuel, ctx, st, callee.ref, args)
  }

  /** `LoxClass.call`: a new instance, initialised by `init` (found along
      the superclass chain) bound to it when there is one; the result is the
      instance, whatever `init` returns. */
  function CallClass(fuel: nat, ctx: Ctx, st: State, c: nat, args: seq<Value>): (r: Res)
    requires Valid(ctx, st) && IsClass(st.heap, c) && SeqValuesOk(st.heap, args)
    requires |args| == ClassArity(st.heap, c)
    ensures ExprStep(ctx, st, r)
    ensures r.outcome.Normal? ==>
      && r.outcome.value == Obj(|st.heap.objects|)
      && IsInstance(r.st.heap, |st.heap.objects|)
      && r.st.heap.objects[|st.heap.objects|].klass == c
    ensures FindMethod(st.heap, c, "init").None? ==>
      r.outcome == Normal(Obj(|st.heap.objects|)) && r.st.out == st.out
    decreases fuel, 3, 0
  {
    var (h1, i) := Alloc(st.heap, InstanceObj(c, map[]));
    match FindMethod(st.heap, c, "init")
    case None => Res(Normal(Obj(i)), st.(heap := h1))
    case Some(m) =>
      var (h2, bound) := Bind(h1, m, Obj(i));
      EvolvesTransitive(st.heap, h1, h2);
      var b := CallFunction(fuel, ctx, st.(heap := h2), bound, args);
      EvolvesTransitive(st.heap, h2, b.st.heap);
      assert Persists(h2.objects[i], b.st.heap.objects[i]);
      if b.outcome.Normal? then Res(Normal(Obj(i)), b.st) else b
  }

  /** The parameter bindings of a call: `define` of each parameter in
      order, so a repeated name keeps its last argument. */
  function Bindings(params: seq<Token>, args: seq<Value>): (m: map<string, Value>)
    requires |params| == |args|
    ensures m.Keys == set p | p in params :: p.lexeme
    decreases |params|
  {
    if |params| == 0 then map[]
    else
      var n := |params| - 1;
      assert params == params[..n] + [params[n]];
      Bindings(params[..n], args[..n])[params[n].lexeme := args[n]]
  }

  lemma {:induction false} BindingsOk(h: Heap, params: seq<Token>, args: seq<Value>)
    requires |params| == |args| && SeqValuesOk(h, args)
    ensures ValuesOk(h, Bindings(params, args))
    decreases |params|
  {
    if |params| > 0 {
      var n := |params| - 1;
      BindingsOk(h, params[..n], args[..n]);
    }
  }

  /** Each parameter is bound to the argument at its position unless a
      later parameter has the same name. */
  lemma {:induction false} BindingsLastWins(params: seq<Token>, args: seq<Value>, i: nat)
    requires |params| == |args| && i < |params|
    requires forall j | i < j < |params| :: params[j].lexeme != params[i].lexeme
    ensures Bindings(params, args)[params[i].lexeme] == args[i]
    decreases |params|
  {
    var n := |params| - 1;
    assert Bindings(params, args) == Bindings(params[..n], args[..n])[params[n].lexeme := args[n]];
    if i < n {
      var ps, vs := params[..n], args[..n];
      assert ps[i] == params[i] && vs[i] == args[i];
      assert forall j | i < j < |ps| :: ps[j].lexeme != ps[i].lexeme by {
        forall j | i < j < |ps| ensures ps[j].lexeme != ps[i].lexeme {
          assert ps[j] == params[j];
        }
      }
      BindingsLastWins(ps, vs, i);
      assert params[n].lexeme != params[i].lexeme;
    }
  }

  /** `LoxFunction.call`: the parameters are bound in a new scope enclosing
      the closure and the body runs there. A `return` yields its value, an
      initializer always yields the `this` of its closure, and falling off
      the end yields nil. `break` and `continue` escape the call, since only
      the return exception is caught. */
  function CallFunction(fuel: nat, ctx: Ctx, st: State, f: LoxFunction, args: seq<Value>): (r: Res)
    requires Valid(ctx, st) && FunctionOk(st.heap, f) && SeqValuesOk(st.heap, args)
    requires |args| == |f.declaration.params|
    ensures ExprStep(ctx, st, r)
    ensures f.isInitializer && r.outcome.Normal? ==>
      Some(r.outcome.value) == GetAt(r.st.heap, f.closure, 0, "this")
    decreases fuel, 2, 0
  {
    BindingsOk(st.heap, f.declaration.params, args);
    var (h1, env) := NewFrame(st.heap, Bindings(f.declaration.params, args), Some(f.closure));
    var b := ExecSeq(fuel, ctx, State(h1, env, st.out), f.declaration.body, None);
    EvolvesTransitive(st.heap, h1, b.st.heap);
    var after := b.st.(env := st.env);
    match b.outcome
    case ReturnSignal(v) =>
      if f.isInitializer then Res(InitializerResult(after.heap, f), after) else Res(Normal(v), after)
    case Done(_) =>
      if f.isInitializer then Res(InitializerResult(after.heap, f), after) else Res(Normal(Nil), after)
    case _ => Res(b.outcome, after)
  }

  /** `closure.getAt(0, "this")` of an initializer. */
  function InitializerResult(h: Heap, f: LoxFunction): (o: Outcome)
    requires WellFormed(h) && FunctionOk(h, f)
    ensures OutcomeOk(h, o) && (o.Normal? || o.Fault?)
    ensures o.Normal? <==> GetAt(h, f.closure, 0, "this").Some?
    ensures o.Normal? ==> Some(o.value) == GetAt(h, f.closure, 0, "this")
  {
    match GetAt(h, f.closure, 0, "this")
    case Some(v) => Normal(v)
    case None => Fault
  }

  // ---------------------------------------------------------------------
  // Statements

  function Execute(fuel: nat, ctx: Ctx, st: State, s: Stmt): (r: Res)
    requires Valid(ctx, st)
    ensures StmtStep(ctx, st, r)
    decreases fuel, 0, 0
  {
    if fuel == 0 then Res(OutOfFuel, st)
    else
      var f := fuel - 1;
      match s
      case Expression(e) =>
        var a := Evaluate(f, ctx, st, e);
        if a.outcome.Normal? then Res(Done(Some(a.outcome.value)), a.st) else a
      case Print(e) =>
        var a := Evaluate(f, ctx, st, e);
        if a.outcome.Normal? then
          Res(Done(None), a.st.(out := a.st.out + [Stringify(a.st.heap, a.outcome.value)]))
        else a
      case Var(name, init) => ExecVar(f, ctx, st, name, init)
      case Return(_, value) => ExecReturn(f, ctx, st, value)
      case Break => Res(BreakSignal, st)
      case Continue => Res(ContinueSignal, st)
      case Func(decl) => ExecFunc(ctx, st, decl)
      case Block(stmts) => ExecBlock(f, ctx, st, stmts)
      case If(cond, thenBranch, elseBranch) => ExecIf(f, ctx, st, cond, thenBranch, elseBranch)
      case While(cond, body) => WhileLoop(f, ctx, st, cond, body)
      case Class(name, superclass, methods) => ExecClass(f, ctx, st, name, superclass, methods)
  }

  /** `visitVarStmt`: defines the name in the current scope, overwriting. */
  function ExecVar(fuel: nat, ctx: Ctx, st: State, name: Token, init: Expr): (r: Res)
    requires Valid(ctx, st)
    ensures StmtStep(ctx, st, r)
    ensures r.outcome.Done? ==>
      && r.outcome.last.None?
      && HoldsAt(r.st.heap, st.env, 0, name.lexeme)
      && Evaluate(fuel, ctx, st, init).outcome.Normal?
      && r.st.heap.frames[st.env].values[name.lexeme] == Evaluate(fuel, ctx, st, init).outcome.value
    decreases fuel, 1, 0
  {
    var a := Evaluate(fuel, ctx, st, init);
    if !a.outcome.Normal? then a
    else
      var h := Define(a.st.heap, st.env, name.lexeme, a.outcome.value);
      EvolvesTransitive(st.heap, a.st.heap, h);
      Res(Done(None), a.st.(heap := h))
  }

  /** `visitReturnStmt`: a missing value returns nil. */
  function ExecReturn(fuel: nat, ctx: Ctx, st: State, value: Option<Expr>): (r: Res)
    requires Valid(ctx, st)
    ensures StmtStep(ctx, st, r)
    ensures !r.outcome.Done?
    ensures value.None? ==> r == Res(ReturnSignal(Nil), st)
    decreases fuel, 1, 0
  {
    match value
    case None => Res(ReturnSignal(Nil), st)
    case Some(e) =>
      var a := Evaluate(fuel, ctx, st, e);
      if a.outcome.Normal? then Res(ReturnSignal(a.outcome.value), a.st) else a
  }

  /** `visitFuncStmt`: a new function closing over the current scope,
      defined in it. */
  function ExecFunc(ctx: Ctx, st: State, decl: FuncDecl): (r: Res)
    requires Valid(ctx, st)
    ensures StmtStep(ctx, st, r) && r.outcome == Done(None) && r.st.out == st.out
    ensures decl.name.lexeme in r.st.heap.frames[st.env].values
    ensures var v := r.st.heap.frames[st.env].values[decl.name.lexeme];
      && v.Obj? && v.ref < |r.st.heap.objects|
      && r.st.heap.objects[v.ref] == FunctionObj(LoxFunction(decl, st.env, false))
  {
    var (h1, ref) := Alloc(st.heap, FunctionObj(LoxFunction(decl, st.env, false)));
    var h2 := Define(h1, st.env, decl.name.lexeme, Obj(ref));
    EvolvesTransitive(st.heap, h1, h2);
    assert h2.frames[st.env].values[decl.name.lexeme] == Obj(ref);
    assert h2.objects[ref] == FunctionObj(LoxFunction(decl, st.env, false));
    Res(Done(None), st.(heap := h2))
  }

  /** `visitBlockStmt`: the statements run in a new scope enclosing the
      current one, which is restored afterwards. */
  function ExecBlock(fuel: nat, ctx: Ctx, st: State, stmts: seq<Stmt>): (r: Res)
    requires Valid(ctx, st)
    ensures StmtStep(ctx, st, r)
    decreases fuel, 2, 0
  {
    var (h1, env) := NewFrame(st.heap, map[], Some(st.env));
    var b := ExecSeq(fuel, ctx, State(h1, env, st.out), stmts, None);
    EvolvesTransitive(st.heap, h1, b.st.heap);
    Res(b.outcome, b.st.(env := st.env))
  }

  /** The loop of `executeBlock`: every statement in order, stopping at the
      first abrupt outcome; on completion the result is the last
      statement's. */
  function ExecSeq(fuel: nat, ctx: Ctx, st: State, stmts: seq<Stmt>, last: Option<Value>): (r: Res)
    requires Valid(ctx, st) && (last.Some? ==> ValueOk(st.heap, last.value))
    ensures StmtStep(ctx, st, r)
    ensures |stmts| == 0 ==> r == Res(Done(last), st)
    decreases fuel, 1, |stmts|
  {
    if |stmts| == 0 then Res(Done(last), st)
    else
      var a := Execute(fuel, ctx, st, stmts[0]);
      if !a.outcome.Done? then a
      else
        var b := ExecSeq(fuel, ctx, a.st, stmts[1..], a.outcome.last);
        EvolvesTransitive(st.heap, a.st.heap, b.st.heap);
        b
  }

  /** `visitIfStmt`: at most one branch runs; the statement's own result is
      `undefined` whatever the branch returned. */
  function ExecIf(fuel: nat, ctx: Ctx, st: State, cond: Expr, thenBranch: Stmt, elseBranch: Option<Stmt>): (r: Res)
    requires Valid(ctx, st)
    ensures StmtStep(ctx, st, r)
    ensures r.outcome.Done? ==> r.outcome.last.None?
    decreases fuel, 1, 0
  {
    var a := Evaluate(fuel, ctx, st, cond);
    if !a.outcome.Normal? then a
    else if IsTruthy(a.outcome.value) then
      var b := Execute(fuel, ctx, a.st, thenBranch);
      EvolvesTransitive(st.heap, a.st.heap, b.st.heap);
      if b.outcome.Done? then Res(Done(None), b.st) else b
    else match elseBranch
      case None => Res(Done(None), a.st)
      case Some(e) =>
        var b := Execute(fuel, ctx, a.st, e);
        EvolvesTransitive(st.heap, a.st.heap, b.st.heap);
        if b.outcome.Done? then Res(Done(None), b.st) else b
  }

  /** `visitWhileStmt`: the condition is re-evaluated before every
      iteration; `break` in the body ends the loop, `continue` goes on to
      the next test, and any other abrupt outcome, of the body or of the
      condition, leaves the loop. */
  function WhileLoop(fuel: nat, ctx: Ctx, st: State, cond: Expr, body: Stmt): (r: Res)
    requires Valid(ctx, st)
    ensures StmtStep(ctx, st, r)
    ensures r.outcome.Done? ==> r.outcome.last.None?
    decreases fuel, 1, 0
  {
    var a := Evaluate(fuel, ctx, st, cond);
    if !a.outcome.Normal? then a
    else if !IsTruthy(a.outcome.value) then Res(Done(None), a.st)
    else
      var b := Execute(fuel, ctx, a.st, body);
      EvolvesTransitive(st.heap, a.st.heap, b.st.heap);
      if b.outcome.BreakSignal? then Res(Done(None), b.st)
      else if b.outcome.Done? || b.outcome.ContinueSignal? then
        if fuel == 0 then Res(OutOfFuel, b.st)
        else
          var c := WhileLoop(fuel - 1, ctx, b.st, cond, body);
          EvolvesTransitive(st.heap, b.st.heap, c.st.heap);
          c
      else b
  }

  /** The method table of a class: one function per declaration, closing
      over `env`, flagged as initializer exactly when named `init`; a later
      declaration replaces an earlier one of the same name. */
  function MethodTable(methods: seq<FuncDecl>, env: nat): (t: map<string, LoxFunction>)
    ensures t.Keys == set i | 0 <= i < |methods| :: methods[i].name.lexeme
    ensures forall k | k in t ::
      t[k].closure == env && t[k].isInitializer == (k == "init") && t[k].declaration.name.lexeme == k
    decreases |methods|
  {
    if |methods| == 0 then map[]
    else
      var n := |methods| - 1;
      var t := MethodTable(methods[..n], env);
      assert forall i | 0 <= i < n :: methods[..n][i] == methods[i];
      var m := methods[n];
      t[m.name.lexeme := LoxFunction(m, env, m.name.lexeme == "init")]
  }

  /** `visitClassStmt`: the superclass expression is evaluated and checked
      first; then the name is defined as nil, the methods close over a
      scope binding `super` when there is a superclass, and the class is
      assigned to the name. The statement's result is `null`. */
  function ExecClass(fuel: nat, ctx: Ctx, st: State, name: Token, superclass: Option<VariableExpr>,
                     methods: seq<FuncDecl>): (r: Res)
    requires Valid(ctx, st)
    ensures StmtStep(ctx, st, r)
    ensures r.outcome.Done? ==> r.outcome.last == Some(Nil)
    decreases fuel, 1, 0
  {
    match superclass
    case None => DeclareClass(ctx, st, name, None, methods)
    case Some(v) =>
      var a := Evaluate(fuel, ctx, st, v);
      if !a.outcome.Normal? then a
      else if !(a.outcome.value.Obj? && IsClass(a.st.heap, a.outcome.value.ref)) then
        Res(Thrown(RuntimeError(v.name, "Superclass must be a class.")), a.st)
      else
        var b := DeclareClass(ctx, a.st, name, Some(a.outcome.value.ref), methods);
        EvolvesTransitive(st.heap, a.st.heap, b.st.heap);
        b
  }

  /** The part of `visitClassStmt` after the superclass check. The class is
      allocated at the next free index and bound to its name in the current
      scope; its methods close over the scope that binds `super`. */
  function DeclareClass(ctx: Ctx, st: State, name: Token, superclass: Option<nat>,
                        methods: seq<FuncDecl>): (r: Res)
    requires Valid(ctx, st)
    requires superclass.Some? ==> IsClass(st.heap, superclass.value)
    ensures StmtStep(ctx, st, r) && r.st.out == st.out
    ensures r.outcome == Done(Some(Nil))
    ensures var k := |st.heap.objects|;
      && IsClass(r.st.heap, k)
      && r.st.heap.objects[k].cls.name == name.lexeme
      && r.st.heap.objects[k].cls.superclass == superclass
      && name.lexeme in r.st.heap.frames[st.env].values
      && r.st.heap.frames[st.env].values[name.lexeme] == Obj(k)
  {
    var h1 := Define(st.heap, st.env, name.lexeme, Nil);
    var (h3, k) := ClassObject(h1, st.env, name, superclass, methods);
    EvolvesTransitive(st.heap, h1, h3);
    DefineThenAssign(h1, h3, st.env, name, Obj(k));
    var h4 := Define(h3, st.env, name.lexeme, Obj(k));
    EvolvesTransitive(st.heap, h3, h4);
    assert h4.frames[st.env].values[name.lexeme] == Obj(k);
    Res(Done(Some(Nil)), st.(heap := h4))
  }

  /** The class object of `visitClassStmt`: with a superclass, its methods
      close over a new frame binding `super`; the frame `env` itself is
      left as it was. */
  function ClassObject(h1: Heap, env: nat, name: Token, superclass: Option<nat>,
                       methods: seq<FuncDecl>): (r: (Heap, nat))
    requires Live(h1, env)
    requires superclass.Some? ==> IsClass(h1, superclass.value)
    ensures Evolves(h1, r.0) && Live(r.0, env) && r.0.frames[env] == h1.frames[env]
    ensures r.1 == |h1.objects| && IsClass(r.0, r.1)
    ensures r.0.objects[r.1].cls.name == name.lexeme && r.0.objects[r.1].cls.superclass == superclass
    ensures superclass.Some? ==>
      && |r.0.frames| == |h1.frames| + 1
      && r.0.frames[|h1.frames|].values == map["super" := Obj(superclass.value)]
      && (forall k | k in r.0.objects[r.1].cls.methods :: r.0.objects[r.1].cls.methods[k].closure == |h1.frames|)
    ensures superclass.None? ==>
      && |r.0.frames| == |h1.frames|
      && (forall k | k in r.0.objects[r.1].cls.methods :: r.0.objects[r.1].cls.methods[k].closure == env)
  {
    var (h2, menv) :=
      if superclass.Some? then NewFrame(h1, map["super" := Obj(superclass.value)], Some(env))
      else (h1, env);
    var table := MethodTable(methods, menv);
    var (h3, k) := Alloc(h2, ClassObj(LoxClass(name.lexeme, superclass, table)));
    EvolvesTransitive(h1, h2, h3);
    (h3, k)
  }

  /** After `define(name)` in a frame, later steps that only append frames
      or objects or define in that frame keep the name there, so `assign`
      finds it in that very frame. */
  lemma DefineThenAssign(h1: Heap, h3: Heap, env: nat, name: Token, v: Value)
    requires Live(h1, env) && Live(h3, env) && ValueOk(h3, v)
    requires name.lexeme in h1.frames[env].values
    requires h3.frames[env] == h1.frames[env]
    ensures Environments.Assign(h3, env, name, v) == Ok(Define(h3, env, name.lexeme, v))
  {
  }

  // ---------------------------------------------------------------------
  // The driver

  /** What `interpret` leaves behind: the last statement result, the
      runtime error reported, if any, and the final state. */
  datatype Run = Run(last: Option<Value>, error: Option<RuntimeError>, st: State)

  /** `interpret`: runs the statements in order. A runtime error is
      reported and ends the run; any other exception ends it silently; the
      result is the value of the last statement that completed. */
  function Interpret(fuel: nat, ctx: Ctx, st: State, stmts: seq<Stmt>, last: Option<Value>): (r: Run)
    requires Valid(ctx, st) && (last.Some? ==> ValueOk(st.heap, last.value))
    ensures Valid(ctx, r.st) && r.st.env == st.env && Evolves(st.heap, r.st.heap) && st.out <= r.st.out
    ensures r.last.Some? ==> ValueOk(r.st.heap, r.last.value)
    decreases |stmts|
  {
    if |stmts| == 0 then Run(last, None, st)
    else
      var a := Execute(fuel, ctx, st, stmts[0]);
      match a.outcome
      case Done(l) =>
        var b := Interpret(fuel, ctx, a.st, stmts[1..], l);
        EvolvesTransitive(st.heap, a.st.heap, b.st.heap);
        b
      case Thrown(err) => Run(last, Some(err), a.st)
      case _ => Run(last, None, a.st)
  }

  /** The interpreter's initial state: an empty globals scope. */
  function InitialState(): (st: State)
    ensures Valid(Ctx(0, map[]), st) && st.out == []
  {
    State(Heap([Frame(map[], None)], []), 0, [])
  }

  /** Runs a resolved program from the initial state. */
  function RunProgram(fuel: nat, locals: map<nat, nat>, program: seq<Stmt>): (r: Run)
    ensures r.st.env == 0 && Valid(Ctx(0, locals), r.st)
  {
    Interpret(fuel, Ctx(0, locals), InitialState(), program, None)
  }
}
