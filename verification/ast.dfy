/** The syntax tree the parser builds and the resolver and interpreter walk.
    Every expression node carries an `id`, unique per parse, which stands for
    the node identity the resolution table is keyed by. */
module Ast {
  import opened Common
  import opened Tokens

  datatype Expr =
    | Assign(id: nat, name: Token, value: Expr)
    | Binary(id: nat, left: Expr, operator: Token, right: Expr)
    | Call(id: nat, callee: Expr, paren: Token, args: seq<Expr>)
    | Get(id: nat, obj: Expr, name: Token)
    | Grouping(id: nat, expression: Expr)
    | Literal(id: nat, lit: LitValue)
    | Logical(id: nat, left: Expr, operator: Token, right: Expr)
    | Set(id: nat, obj: Expr, name: Token, value: Expr)
    | Super(id: nat, keyword: Token, methodName: Token)
    | This(id: nat, keyword: Token)
    | Unary(id: nat, operator: Token, right: Expr)
    | Variable(id: nat, name: Token)
    | Comma(id: nat, left: Expr, right: Expr)
    | Ternary(id: nat, cond: Expr, truthy: Expr, falsey: Expr)

  /** A class's superclass clause: the parser only ever builds a variable
      reference there. */
  type VariableExpr = e: Expr | e.Variable? witness Variable(0, Token(Identifier, "", LNil, 0))

  datatype FuncDecl = FuncDecl(name: Token, params: seq<Token>, body: seq<Stmt>)

  datatype Stmt =
    | Block(statements: seq<Stmt>)
    | Class(name: Token, superclass: Option<VariableExpr>, methods: seq<FuncDecl>)
    | Expression(expression: Expr)
    | Func(decl: FuncDecl)
    | If(condition: Expr, thenBranch: Stmt, elseBranch: Option<Stmt>)
    | Print(expression: Expr)
    | Return(keyword: Token, value: Option<Expr>)
    | Var(name: Token, initializer: Expr)
    | While(condition: Expr, body: Stmt)
    | Break
    | Continue
}
