/** The static resolution pass: a walk over the syntax tree that keeps a
    stack of block scopes (name to "initializer finished"), reports the
    scoping errors, and records for every local variable reference how
    many scopes out its declaration is. Globals are not tracked: a
    reference that no scope on the stack holds is left unresolved. */
module Resolution {
  import opened Common
  import opened Tokens
  import opened Ast

  datatype FunctionType = NoFunction | Function | Initializer | Method

  datatype ClassType = NoClass | InClass | Subclass

  /** The resolver's state. `scopes` has the innermost scope last; `locals`
      is the table handed to the interpreter, from expression id to
      distance. */
  datatype Resolver = Resolver(
    scopes: seq<map<string, bool>>,
    currentFunction: FunctionType,
    currentClass: ClassType,
    locals: map<nat, nat>,
    errors: seq<Diag>)

  const InitialResolver := Resolver([], NoFunction, NoClass, map[], [])

  /** Only the innermost scope was touched, and the resolution table and
      the error list only grew. */
  predicate StmtEffect(r: Resolver, r': Resolver) {
    && |r'.scopes| == |r.scopes|
    && (forall i | 0 <= i < |r.scopes| - 1 :: r'.scopes[i] == r.scopes[i])
    && (|r.scopes| > 0 ==> r.scopes[|r.scopes| - 1].Keys <= r'.scopes[|r.scopes| - 1].Keys)
    && r'.currentFunction == r.currentFunction
    && r'.currentClass == r.currentClass
    && r.locals.Keys <= r'.locals.Keys
    && r.errors <= r'.errors
  }

  /** Nothing but the resolution table and the error list changed. */
  predicate ExprEffect(r: Resolver, r': Resolver) {
    && r'.scopes == r.scopes
    && r'.currentFunction == r.currentFunction
    && r'.currentClass == r.currentClass
    && r.locals.Keys <= r'.locals.Keys
    && r.errors <= r'.errors
  }

  lemma ExprEffectIsStmtEffect(r: Resolver, r': Resolver)
    requires ExprEffect(r, r')
    ensures StmtEffect(r, r')
  {
  }

  /** Statement effects compose. */
  lemma StmtEffectTrans(r: Resolver, r1: Resolver, r2: Resolver)
    requires StmtEffect(r, r1) && StmtEffect(r1, r2)
    ensures StmtEffect(r, r2)
  {
  }

  function BeginScope(r: Resolver): (r': Resolver)
    ensures r'.scopes == r.scopes + [map[]]
  {
    r.(scopes := r.scopes + [map[]])
  }

  function EndScope(r: Resolver): (r': Resolver)
    requires |r.scopes| > 0
    ensures r'.scopes == r.scopes[..|r.scopes| - 1]
  {
    r.(scopes := r.scopes[..|r.scopes| - 1])
  }

  /** `declare`: at top level nothing happens; otherwise the name is marked
      "not ready" in the innermost scope, reporting a redeclaration. */
  function Declare(r: Resolver, name: Token): (r': Resolver)
    ensures StmtEffect(r, r') && r'.locals == r.locals
    ensures |r.scopes| == 0 ==> r' == r
    ensures |r.scopes| > 0 ==>
      var n := |r.scopes| - 1;
      && r'.scopes[n] == r.scopes[n][name.lexeme := false]
      && r'.errors == r.errors + (if name.lexeme in r.scopes[n]
                                  then ErrorAtToken(name, "Already a variable with this name in this scope.")
                                  else [])
  {
    if |r.scopes| == 0 then r
    else
      var n := |r.scopes| - 1;
      var scope := r.scopes[n];
      r.(scopes := r.scopes[n := scope[name.lexeme := false]],
         errors := r.errors + (if name.lexeme in scope
                               then ErrorAtToken(name, "Already a variable with this name in this scope.")
                               else []))
  }

  /** `define`: marks the name ready in the innermost scope. */
  function Define(r: Resolver, name: Token): (r': Resolver)
    ensures StmtEffect(r, r') && r'.locals == r.locals && r'.errors == r.errors
    ensures |r.scopes| == 0 ==> r' == r
    ensures |r.scopes| > 0 ==> r'.scopes[|r.scopes| - 1] == r.scopes[|r.scopes| - 1][name.lexeme := true]
  {
    if |r.scopes| == 0 then r
    else
      var n := |r.scopes| - 1;
      r.(scopes := r.scopes[n := r.scopes[n][name.lexeme := true]])
  }

  /** The descending search of `resolveLocal`: the highest index `i <= top`
      whose scope holds the name. */
  function FindScope(scopes: seq<map<string, bool>>, name: string, top: int): (i: int)
    requires -1 <= top < |scopes|
    ensures -1 <= i <= top
    ensures i >= 0 ==> name in scopes[i]
    ensures forall j | i < j <= top :: name !in scopes[j]
    decreases top + 1
  {
    if top < 0 then -1
    else if name in scopes[top] then top
    else FindScope(scopes, name, top - 1)
  }

  /** `resolveLocal`: records the distance to the innermost scope that holds
      the name; when none does, the expression stays unresolved (a global). */
  function ResolveLocal(r: Resolver, id: nat, name: Token): (r': Resolver)
    ensures ExprEffect(r, r') && r'.errors == r.errors
    ensures (exists i | 0 <= i < |r.scopes| :: name.lexeme in r.scopes[i]) ==>
      id in r'.locals && r'.locals == r.locals[id := r'.locals[id]]
    ensures (forall i | 0 <= i < |r.scopes| :: name.lexeme !in r.scopes[i]) ==> r' == r
    ensures id in r'.locals && r'.locals != r.locals ==> r'.locals[id] < |r.scopes|
  {
    var i := FindScope(r.scopes, name.lexeme, |r.scopes| - 1);
    if i < 0 then r
    else r.(locals := r.locals[id := |r.scopes| - 1 - i])
  }

  /** The distance `resolveLocal` records names the innermost scope holding
      the name: that scope holds it and no scope nearer the top does. */
  lemma ResolveLocalInnermost(r: Resolver, id: nat, name: Token)
    requires exists i | 0 <= i < |r.scopes| :: name.lexeme in r.scopes[i]
    ensures var r' := ResolveLocal(r, id, name);
      && id in r'.locals
      && var d := r'.locals[id];
      && d < |r.scopes|
      && name.lexeme in r.scopes[|r.scopes| - 1 - d]
      && (forall j | |r.scopes| - 1 - d < j < |r.scopes| :: name.lexeme !in r.scopes[j])
  {
  }

  function ResolveExpr(r: Resolver, e: Expr): (r': Resolver)
    ensures ExprEffect(r, r')
    decreases e, 1
  {
    match e
    case Literal(_, _) => r
    case Grouping(_, inner) => ResolveExpr(r, inner)
    case Unary(_, _, right) => ResolveExpr(r, right)
    case Binary(_, left, _, right) => ResolveExpr(ResolveExpr(r, left), right)
    case Logical(_, left, _, right) => ResolveExpr(ResolveExpr(r, left), right)
    case Comma(_, left, right) => ResolveExpr(ResolveExpr(r, left), right)
    case Ternary(_, c, t, f) => ResolveExpr(ResolveExpr(ResolveExpr(r, c), t), f)
    case Call(_, callee, _, args) => ResolveExprs(ResolveExpr(r, callee), args)
    case Get(_, obj, _) => ResolveExpr(r, obj)
    case Set(_, obj, _, value) => ResolveExpr(ResolveExpr(r, value), obj)
    case Assign(id, name, value) => ResolveLocal(ResolveExpr(r, value), id, name)
    case Variable(id, name) => ResolveVariable(r, id, name)
    case This(id, keyword) => ResolveThis(r, id, keyword)
    case Super(id, keyword, _) => ResolveSuper(r, id, keyword)
  }

  function ResolveExprs(r: Resolver, es: seq<Expr>): (r': Resolver)
    ensures ExprEffect(r, r')
    decreases es, 0
  {
    if |es| == 0 then r else ResolveExprs(ResolveExpr(r, es[0]), es[1..])
  }

  /** `visitVariableExpr`: reading a name whose declaration in the innermost
      scope has not finished its initializer is an error; the reference is
      resolved either way. */
  function ResolveVariable(r: Resolver, id: nat, name: Token): (r': Resolver)
    ensures ExprEffect(r, r')
    ensures r'.locals == ResolveLocal(r, id, name).locals
    ensures |r.scopes| > 0 && name.lexeme in r.scopes[|r.scopes| - 1] && !r.scopes[|r.scopes| - 1][name.lexeme] ==>
      r'.errors == r.errors + ErrorAtToken(name, "Can't read local variable in its own initializer.")
    ensures !(|r.scopes| > 0 && name.lexeme in r.scopes[|r.scopes| - 1] && !r.scopes[|r.scopes| - 1][name.lexeme]) ==>
      r'.errors == r.errors
  {
    var n := |r.scopes| - 1;
    var r1 :=
      if |r.scopes| > 0 && name.lexeme in r.scopes[n] && !r.scopes[n][name.lexeme] then
        r.(errors := r.errors + ErrorAtToken(name, "Can't read local variable in its own initializer."))
      else r;
    ResolveLocal(r1, id, name)
  }

  /** `visitThisExpr`: outside a class it is an error and stays unresolved. */
  function ResolveThis(r: Resolver, id: nat, keyword: Token): (r': Resolver)
    ensures ExprEffect(r, r')
    ensures r.currentClass == NoClass ==>
      r' == r.(errors := r.errors + ErrorAtToken(keyword, "Can't use 'this' outside of a class."))
    ensures r.currentClass != NoClass ==> r' == ResolveLocal(r, id, keyword)
  {
    if r.currentClass == NoClass then
      r.(errors := r.errors + ErrorAtToken(keyword, "Can't use 'this' outside of a class."))
    else ResolveLocal(r, id, keyword)
  }

  /** `visitSuperExpr`: outside a class, or in a class without a superclass,
      it is an error; the reference is resolved in every case. */
  function ResolveSuper(r: Resolver, id: nat, keyword: Token): (r': Resolver)
    ensures ExprEffect(r, r')
    ensures r'.locals == ResolveLocal(r, id, keyword).locals
    ensures r.currentClass == NoClass ==>
      r'.errors == r.errors + ErrorAtToken(keyword, "Can't use 'super' outside of a class.")
    ensures r.currentClass == InClass ==>
      r'.errors == r.errors + ErrorAtToken(keyword, "Can't use 'super' in a class with no superclass.")
    ensures r.currentClass == Subclass ==> r'.errors == r.errors
  {
    var diag :=
      if r.currentClass == NoClass then ErrorAtToken(keyword, "Can't use 'super' outside of a class.")
      else if r.currentClass != Subclass then ErrorAtToken(keyword, "Can't use 'super' in a class with no superclass.")
      else [];
    // The diagnostic comes first in the source; resolving touches only the
    // table, so the order does not change the state.
    var r1 := ResolveLocal(r, id, keyword);
    r1.(errors := r1.errors + diag)
  }

  function ResolveStmt(r: Resolver, s: Stmt): (r': Resolver)
    ensures StmtEffect(r, r')
    decreases s, 1
  {
    match s
    case Expression(e) => ResolveExpr(r, e)
    case Print(e) => ResolveExpr(r, e)
    case Var(name, init) =>
      var r1 := Declare(r, name);
      var r2 := ResolveExpr(r1, init);
      Define(r2, name)
    case Block(stmts) => ResolveBlock(r, stmts)
    case Func(decl) =>
      var d := Define(Declare(r, decl.name), decl.name);
      var f := ResolveFunction(d, decl, Function);
      ExprEffectIsStmtEffect(d, f);
      StmtEffectTrans(r, d, f);
      f
    case If(cond, thenBranch, elseBranch) =>
      var c := ResolveExpr(r, cond);
      var r1 := ResolveStmt(c, thenBranch);
      ExprEffectIsStmtEffect(r, c);
      StmtEffectTrans(r, c, r1);
      (match elseBranch
       case None => r1
       case Some(e) =>
         var r2 := ResolveStmt(r1, e);
         StmtEffectTrans(r, r1, r2);
         r2)
    case While(cond, body) =>
      var c := ResolveExpr(r, cond);
      var r1 := ResolveStmt(c, body);
      ExprEffectIsStmtEffect(r, c);
      StmtEffectTrans(r, c, r1);
      r1
    case Return(keyword, value) => ResolveReturn(r, keyword, value)
    case Break => r
    case Continue => r
    case Class(name, superclass, methods) => ResolveClass(r, name, superclass, methods)
  }

  /** `visitBlockStmt`: the statements in a scope of their own; the
      declarations end with the block, so the scope stack after it is the
      one before it. */
  function ResolveBlock(r: Resolver, stmts: seq<Stmt>): (r': Resolver)
    ensures StmtEffect(r, r') && r'.scopes == r.scopes
    decreases stmts, 1
  {
    var inner := ResolveStmts(BeginScope(r), stmts);
    assert inner.scopes[..|r.scopes|] == r.scopes by {
      assert forall i | 0 <= i < |r.scopes| :: inner.scopes[i] == (r.scopes + [map[]])[i];
    }
    EndScope(inner)
  }

  function ResolveStmts(r: Resolver, ss: seq<Stmt>): (r': Resolver)
    ensures StmtEffect(r, r')
    decreases ss, 0
  {
    if |ss| == 0 then r else ResolveStmts(ResolveStmt(r, ss[0]), ss[1..])
  }

  /** `visitReturnStmt`: a return outside any function is an error, and so
      is a returned value inside an initializer. */
  function ResolveReturn(r: Resolver, keyword: Token, value: Option<Expr>): (r': Resolver)
    ensures ExprEffect(r, r')
    ensures r.currentFunction == NoFunction ==>
      r.errors + ErrorAtToken(keyword, "Can't return from top-level code.") <= r'.errors
    ensures value.None? && r.currentFunction != NoFunction ==> r' == r
    ensures value.Some? && r.currentFunction == Initializer ==>
      r.errors + ErrorAtToken(keyword, "Can't return a value from an initializer") <= r'.errors
    ensures value.Some? && r.currentFunction !in {NoFunction, Initializer} ==> r' == ResolveExpr(r, value.value)
    decreases value, 0
  {
    var r1 :=
      if r.currentFunction == NoFunction then
        r.(errors := r.errors + ErrorAtToken(keyword, "Can't return from top-level code."))
      else r;
    match value
    case None => r1
    case Some(e) =>
      var r2 :=
        if r.currentFunction == Initializer then
          r1.(errors := r1.errors + ErrorAtToken(keyword, "Can't return a value from an initializer"))
        else r1;
      ResolveExpr(r2, e)
  }

  /** `resolveFunction`: the parameters and the body share one new scope,
      resolved with the given function type; afterwards the scope stack
      and the enclosing function type are as before. */
  function ResolveFunction(r: Resolver, decl: FuncDecl, kind: FunctionType): (r': Resolver)
    ensures ExprEffect(r, r')
    decreases decl, 2
  {
    var r1 := BeginScope(r.(currentFunction := kind));
    var r2 := DeclareParams(r1, decl.params);
    var r3 := ResolveStmts(r2, decl.body);
    EndScope(r3).(currentFunction := r.currentFunction)
  }

  /** `declare` then `define` of each parameter, in order. */
  function DeclareParams(r: Resolver, params: seq<Token>): (r': Resolver)
    ensures StmtEffect(r, r')
    ensures |r.scopes| > 0 ==> forall p | p in params ::
      p.lexeme in r'.scopes[|r.scopes| - 1] && r'.scopes[|r.scopes| - 1][p.lexeme]
    decreases |params|
  {
    if |params| == 0 then r
    else
      var n := |params| - 1;
      var r1 := DeclareParams(r, params[..n]);
      assert forall p | p in params[..n] :: p in params;
      assert forall p | p in params :: p in params[..n] || p == params[n];
      var d := Declare(r1, params[n]);
      var r2 := Define(d, params[n]);
      StmtEffectTrans(r1, d, r2);
      StmtEffectTrans(r, r1, r2);
      r2
  }

  /** `visitClassStmt`. The name is declared and defined in the current
      scope; a class naming itself as superclass is an error; methods are
      resolved inside a scope binding `this`, itself inside one binding
      `super` when there is a superclass; `init` is resolved as an
      initializer. */
  function ResolveClass(r: Resolver, name: Token, superclass: Option<VariableExpr>,
                        methods: seq<FuncDecl>): (r': Resolver)
    ensures StmtEffect(r, r')
    decreases methods, 1
  {
    var r5 := ClassScopes(r, name, superclass);
    var r6 := ResolveMethods(r5, methods);
    var r7 := EndScope(r6);
    var r8 := if superclass.Some? then EndScope(r7) else r7;
    r8.(currentClass := r.currentClass)
  }

  /** The start of `visitClassStmt`: the class name is declared and
      defined, and the superclass, if any, resolved; a class naming itself
      as its superclass is reported. */
  function ClassHead(r: Resolver, name: Token, superclass: Option<VariableExpr>): (r3: Resolver)
    ensures StmtEffect(r, r3.(currentClass := r.currentClass))
    ensures r3.currentClass == if superclass.Some? then Subclass else InClass
  {
    var r1 := Define(Declare(r.(currentClass := InClass), name), name);
    var r2 :=
      if superclass.Some? && name.lexeme == superclass.value.name.lexeme then
        r1.(errors := r1.errors + ErrorAtToken(superclass.value.name, "A class can't inherit"))
      else r1;
    if superclass.Some? then ResolveExpr(r2.(currentClass := Subclass), superclass.value) else r2
  }

  /** Then a scope binding `super` when there is a superclass, and one
      binding `this`; nothing else changes. */
  function ClassScopes(r: Resolver, name: Token, superclass: Option<VariableExpr>): (r5: Resolver)
    ensures var h := ClassHead(r, name, superclass);
            && r5.scopes == h.scopes + (if superclass.Some? then [map["super" := true]] else []) + [map["this" := true]]
            && r5.locals == h.locals && r5.errors == h.errors
            && r5.currentFunction == h.currentFunction && r5.currentClass == h.currentClass
  {
    var r3 := ClassHead(r, name, superclass);
    var r4 := if superclass.Some? then BeginScope(r3).(scopes := r3.scopes + [map["super" := true]]) else r3;
    BeginScope(r4).(scopes := r4.scopes + [map["this" := true]])
  }

  /** A class with one method: what the method's resolution recorded is what
      the class statement records. */
  lemma ClassLocals(r: Resolver, name: Token, superclass: Option<VariableExpr>, decl: FuncDecl)
    ensures var kind := if decl.name.lexeme == "init" then Initializer else Method;
            ResolveStmt(r, Class(name, superclass, [decl])).locals
            == ResolveFunction(ClassScopes(r, name, superclass), decl, kind).locals
  {
    var r5 := ClassScopes(r, name, superclass);
    var kind := if decl.name.lexeme == "init" then Initializer else Method;
    var f := ResolveFunction(r5, decl, kind);
    assert ResolveMethods(r5, [decl]) == ResolveMethods(f, []) == f;
  }

  function ResolveMethods(r: Resolver, methods: seq<FuncDecl>): (r': Resolver)
    ensures ExprEffect(r, r')
    decreases methods, 0
  {
    if |methods| == 0 then r
    else
      var kind := if methods[0].name.lexeme == "init" then Initializer else Method;
      ResolveMethods(ResolveFunction(r, methods[0], kind), methods[1..])
  }

  /** Resolves a whole program from the empty state. */
  function Resolve(program: seq<Stmt>): (r: Resolver)
    ensures r.scopes == [] && r.currentFunction == NoFunction && r.currentClass == NoClass
  {
    ResolveStmts(InitialResolver, program)
  }

  lemma StmtsOne(r: Resolver, s1: Stmt)
    ensures ResolveStmts(r, [s1]) == ResolveStmt(r, s1)
  {
    assert [s1][1..] == [];
  }

  lemma StmtsPair(r: Resolver, s1: Stmt, s2: Stmt)
    ensures ResolveStmts(r, [s1, s2]) == ResolveStmt(ResolveStmt(r, s1), s2)
  {
    assert [s1, s2][1..] == [s2];
    StmtsOne(ResolveStmt(r, s1), s2);
  }

  /** Declaring a name twice in one local scope is reported at the second
      declaration. */
  lemma {:induction false} RedeclarationReported(r: Resolver, a: Token, e1: Expr, b: Token, e2: Expr)
    requires |r.scopes| > 0 && a.lexeme == b.lexeme
    ensures var r' := ResolveStmts(r, [Var(a, e1), Var(b, e2)]);
      exists pre, post :: r'.errors == pre + ErrorAtToken(b, "Already a variable with this name in this scope.") + post
  {
    var n := |r.scopes| - 1;
    var r1 := ResolveStmt(r, Var(a, e1));
    var r2 := ResolveStmt(r1, Var(b, e2));
    VarStep(r, a, e1);
    VarStep(r1, b, e2);
    StmtsPair(r, Var(a, e1), Var(b, e2));
    var d2 := Declare(r1, b);
    var msg := ErrorAtToken(b, "Already a variable with this name in this scope.");
    assert d2.errors == r1.errors + msg;
    var post := r2.errors[|d2.errors|..];
    assert r2.errors == r1.errors + msg + post;
  }

  /** A local `var` statement leaves its name declared in the innermost
      scope, after whatever `Declare` reported. */
  lemma VarStep(r: Resolver, a: Token, e: Expr)
    requires |r.scopes| > 0
    ensures var r' := ResolveStmt(r, Var(a, e));
            && |r'.scopes| == |r.scopes| && a.lexeme in r'.scopes[|r.scopes| - 1]
            && Declare(r, a).errors <= r'.errors
  {
    var d := Declare(r, a);
    var x := ResolveExpr(d, e);
    assert x.scopes == d.scopes;
  }

  /** `var a = a;` in a local scope reads the variable in its own
      initializer and is reported. */
  lemma {:induction false} OwnInitializerReported(r: Resolver, a: Token, id: nat, a': Token)
    requires |r.scopes| > 0 && a.lexeme == a'.lexeme
    ensures var r' := ResolveStmt(r, Var(a, Variable(id, a')));
      exists pre :: r'.errors == pre + ErrorAtToken(a', "Can't read local variable in its own initializer.")
  {
    var d := Declare(r, a);
    var n := |r.scopes| - 1;
    assert a'.lexeme in d.scopes[n] && !d.scopes[n][a'.lexeme];
    var x := ResolveVariable(d, id, a');
    assert ResolveExpr(d, Variable(id, a')) == x;
    assert x.errors == d.errors + ErrorAtToken(a', "Can't read local variable in its own initializer.");
  }

  /** A variable declared in a block and then read in the same block is
      resolved to distance 0, the block's own scope. */
  lemma {:induction false} LocalResolvesToOwnScope(r: Resolver, a: Token, init: Expr, id: nat, a': Token)
    requires a.lexeme == a'.lexeme
    ensures var r' := ResolveStmt(r, Block([Var(a, init), Expression(Variable(id, a'))]));
      id in r'.locals && r'.locals[id] == 0
  {
    var b := BeginScope(r);
    VarStep(b, a, init);
    var r1 := ResolveStmt(b, Var(a, init));
    ReadInnermost(r1, id, a');
    ExpressionStep(r1, Variable(id, a'));
    assert ResolveExpr(r1, Variable(id, a')) == ResolveVariable(r1, id, a');
    StmtsPair(b, Var(a, init), Expression(Variable(id, a')));
  }

  /** Reading a name the innermost scope holds resolves to distance 0. */
  lemma ReadInnermost(r: Resolver, id: nat, name: Token)
    requires |r.scopes| > 0 && name.lexeme in r.scopes[|r.scopes| - 1]
    ensures var r' := ResolveVariable(r, id, name);
      id in r'.locals && r'.locals[id] == 0
  {
    assert FindScope(r.scopes, name.lexeme, |r.scopes| - 1) == |r.scopes| - 1;
  }

  /** `visitExpressionStmt`: the statement resolves its expression. */
  lemma ExpressionStep(r: Resolver, e: Expr)
    ensures ResolveStmt(r, Expression(e)) == ResolveExpr(r, e)
  {
  }

  /** `return` at the top level of a program is reported. */
  lemma TopLevelReturnReported(keyword: Token)
    ensures Resolve([Return(keyword, None)]).errors == ErrorAtToken(keyword, "Can't return from top-level code.")
  {
    StmtsOne(InitialResolver, Return(keyword, None));
  }

  /** `this` at the top level of a program is reported and left unresolved. */
  lemma TopLevelThisReported(id: nat, keyword: Token)
    ensures var r := Resolve([Expression(This(id, keyword))]);
      r.errors == ErrorAtToken(keyword, "Can't use 'this' outside of a class.") && id !in r.locals
  {
    StmtsOne(InitialResolver, Expression(This(id, keyword)));
  }

  /** A class that names itself as its superclass is reported at the
      superclass name. */
  lemma SelfInheritanceReported(r: Resolver, name: Token, v: VariableExpr, methods: seq<FuncDecl>)
    requires v.name.lexeme == name.lexeme
    ensures var r' := ResolveStmt(r, Class(name, Some(v), methods));
      exists pre, post :: r'.errors == pre + ErrorAtToken(v.name, "A class can't inherit") + post
  {
    var r1 := Define(Declare(r.(currentClass := InClass), name), name);
    var r2 := r1.(errors := r1.errors + ErrorAtToken(v.name, "A class can't inherit"));
    var r3 := ResolveExpr(r2.(currentClass := Subclass), v);
    var r4 := BeginScope(r3).(scopes := r3.scopes + [map["super" := true]]);
    var r5 := BeginScope(r4).(scopes := r4.scopes + [map["this" := true]]);
    var r6 := ResolveMethods(r5, methods);
    var r8 := EndScope(EndScope(r6));
    assert ResolveStmt(r, Class(name, Some(v), methods)) == r8.(currentClass := r.currentClass);
    assert r2.errors <= r3.errors <= r6.errors == r8.errors;
    assert r8.errors == r1.errors + ErrorAtToken(v.name, "A class can't inherit") + r8.errors[|r2.errors|..];
  }

  /** A local function may call itself: `fun f() { f(); }` in a block is
      declared and defined before its body is resolved, so the inner `f`
      resolves one scope out, to the block, and nothing is reported. */
  lemma {:induction false} RecursiveLocalFunction(r: Resolver, name: Token, callId: nat, id: nat, f: Token, paren: Token)
    requires |r.scopes| > 0 && f.lexeme == name.lexeme && name.lexeme !in r.scopes[|r.scopes| - 1]
    ensures var r' := ResolveStmt(r, Func(FuncDecl(name, [], [Expression(Call(callId, Variable(id, f), paren, []))])));
      id in r'.locals && r'.locals[id] == 1 && r'.errors == r.errors
  {
    var n := |r.scopes| - 1;
    var decl := FuncDecl(name, [], [Expression(Call(callId, Variable(id, f), paren, []))]);
    var d := Define(Declare(r, name), name);
    assert d.errors == r.errors && |d.scopes| == n + 1 && d.scopes[n][name.lexeme];
    SelfCallBody(d, n, callId, id, f, paren);
    OneStatementBody(d, decl, Function, Call(callId, Variable(id, f), paren, []));
    FuncStep(r, decl);
  }

  /** The body step of `RecursiveLocalFunction`: in the function's fresh
      scope, a call of a name bound in the scope just outside it. */
  lemma SelfCallBody(d: Resolver, n: nat, callId: nat, id: nat, f: Token, paren: Token)
    requires |d.scopes| == n + 1 && f.lexeme in d.scopes[n]
    ensures var b := BeginScope(d.(currentFunction := Function));
      var v := ResolveExpr(b, Call(callId, Variable(id, f), paren, []));
      id in v.locals && v.locals[id] == 1 && v.errors == d.errors
  {
    var b := BeginScope(d.(currentFunction := Function));
    assert |b.scopes| == n + 2 && b.scopes[n + 1] == map[] && f.lexeme in b.scopes[n];
    assert FindScope(b.scopes, f.lexeme, n + 1) == n;
    var v := ResolveVariable(b, id, f);
    assert v.errors == b.errors && v.locals[id] == 1;
    assert ResolveExpr(b, Call(callId, Variable(id, f), paren, [])) == ResolveExprs(v, []);
  }

  /** `visitFuncStmt`: the name is declared and defined, then the function
      is resolved as a plain function. */
  lemma FuncStep(r: Resolver, decl: FuncDecl)
    ensures ResolveStmt(r, Func(decl)) == ResolveFunction(Define(Declare(r, decl.name), decl.name), decl, Function)
  {
  }

  /** `this` in the body of a method resolves to distance 1: one scope out
      from the method's own scope is the scope that binds `this`, which is
      where `bind` puts it at run time. */
  lemma MethodThisDistance(r: Resolver, name: Token, m: Token, id: nat, kw: Token)
    requires kw.lexeme == "this"
    ensures var r' := ResolveStmt(r, Class(name, None, [FuncDecl(m, [], [Expression(This(id, kw))])]));
      id in r'.locals && r'.locals[id] == 1
  {
    var decl := FuncDecl(m, [], [Expression(This(id, kw))]);
    var r5 := ClassScopes(r, name, None);
    var kind := if m.lexeme == "init" then Initializer else Method;
    var f := ThisMethodLocals(r5, decl, kind, |r.scopes|, id, kw);
    ClassLocals(r, name, None, decl);
  }

  /** The method step of `MethodThisDistance`. */
  lemma ThisMethodLocals(r5: Resolver, decl: FuncDecl, kind: FunctionType, n: nat, id: nat, kw: Token)
    returns (f: Resolver)
    requires kw.lexeme == "this" && decl.params == [] && decl.body == [Expression(This(id, kw))]
    requires |r5.scopes| == n + 1 && "this" in r5.scopes[n] && r5.currentClass != NoClass
    ensures f == ResolveFunction(r5, decl, kind) && id in f.locals && f.locals[id] == 1
  {
    var b := BeginScope(r5.(currentFunction := kind));
    assert |b.scopes| == n + 2 && "this" in b.scopes[n] && "this" !in b.scopes[n + 1];
    assert FindScope(b.scopes, "this", n + 1) == n;
    assert ResolveLocal(b, id, kw).locals[id] == 1;
    OneStatementBody(r5, decl, kind, This(id, kw));
    f := ResolveFunction(r5, decl, kind);
  }

  /** `super` in the body of a method of a subclass resolves to distance 2:
      past the method's scope and the `this` scope to the scope that binds
      `super`. */
  lemma MethodSuperDistance(r: Resolver, name: Token, v: VariableExpr, m: Token, id: nat, kw: Token, meth: Token)
    requires kw.lexeme == "super"
    ensures var r' := ResolveStmt(r, Class(name, Some(v), [FuncDecl(m, [], [Expression(Super(id, kw, meth))])]));
      id in r'.locals && r'.locals[id] == 2
  {
    var decl := FuncDecl(m, [], [Expression(Super(id, kw, meth))]);
    var r5 := ClassScopes(r, name, Some(v));
    var kind := if m.lexeme == "init" then Initializer else Method;
    var f := SuperMethodLocals(r5, decl, kind, |r.scopes|, id, kw, meth);
    ClassLocals(r, name, Some(v), decl);
  }

  /** The method step of `MethodSuperDistance`. */
  lemma SuperMethodLocals(r5: Resolver, decl: FuncDecl, kind: FunctionType, n: nat, id: nat, kw: Token, meth: Token)
    returns (f: Resolver)
    requires kw.lexeme == "super" && decl.params == [] && decl.body == [Expression(Super(id, kw, meth))]
    requires |r5.scopes| == n + 2 && "super" in r5.scopes[n] && "super" !in r5.scopes[n + 1]
    ensures f == ResolveFunction(r5, decl, kind) && id in f.locals && f.locals[id] == 2
  {
    var b := BeginScope(r5.(currentFunction := kind));
    assert |b.scopes| == n + 3 && "super" !in b.scopes[n + 2];
    assert b.scopes[n] == r5.scopes[n] && b.scopes[n + 1] == r5.scopes[n + 1];
    assert FindScope(b.scopes, "super", n) == n;
    assert FindScope(b.scopes, "super", n + 1) == n;
    assert FindScope(b.scopes, "super", n + 2) == n;
    assert ResolveLocal(b, id, kw).locals[id] == 2;
    OneStatementBody(r5, decl, kind, Super(id, kw, meth));
    f := ResolveFunction(r5, decl, kind);
  }

  /** A function without parameters whose body is one expression statement
      records what resolving that expression in its scope records. */
  lemma OneStatementBody(r: Resolver, decl: FuncDecl, kind: FunctionType, e: Expr)
    requires decl.params == [] && decl.body == [Expression(e)]
    ensures ResolveFunction(r, decl, kind).locals == ResolveExpr(BeginScope(r.(currentFunction := kind)), e).locals
    ensures ResolveFunction(r, decl, kind).errors == ResolveExpr(BeginScope(r.(currentFunction := kind)), e).errors
  {
    StmtsOne(BeginScope(r.(currentFunction := kind)), Expression(e));
  }
}
