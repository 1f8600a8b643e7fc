/** The debugging printer: renders an expression as a parenthesized prefix
    form, `(* (- 123) (group 45.67))`. It has a visitor only for binary,
    grouping, literal, unary, comma and ternary nodes; any other node makes
    the visit fail, which the model reports as `None`. */
module AstPrinter {
  import opened Common
  import opened Tokens
  import opened Ast

  /** The expressions the printer can render: every node has a visitor. */
  predicate Printable(e: Expr) {
    match e
    case Binary(_, l, _, r) => Printable(l) && Printable(r)
    case Grouping(_, x) => Printable(x)
    case Literal(_, _) => true
    case Unary(_, _, x) => Printable(x)
    case Comma(_, l, r) => Printable(l) && Printable(r)
    case Ternary(_, c, t, f) => Printable(c) && Printable(t) && Printable(f)
    case _ => false
  }

  /** `value.toString()` of a literal, `nil` for the absent value. */
  function LiteralText(v: LitValue): (s: string)
    ensures |s| > 0 || v.LStr?
  {
    match v
    case LNil => "nil"
    case LBool(b) => if b then "true" else "false"
    case LNum(n) => NumberText(n)
    case LStr(s) => s
  }

  /** `parenthesize`: `(`, the name, then a space and the rendering of each
      operand, then `)`. */
  function Parenthesize(name: string, parts: seq<string>): (s: string)
    ensures |s| >= |name| + 2 && s[0] == '(' && s[|s| - 1] == ')'
    ensures s[1..1 + |name|] == name
  {
    "(" + name + Joined(parts) + ")"
  }

  /** Each part preceded by one space. */
  function Joined(parts: seq<string>): string {
    if |parts| == 0 then "" else Joined(parts[..|parts| - 1]) + " " + parts[|parts| - 1]
  }

  /** `print`: the rendering of a printable expression, `None` when some
      node has no visitor. */
  function Print(e: Expr): (r: Option<string>)
    ensures r.Some? <==> Printable(e)
    ensures r.Some? && !e.Literal? ==> |r.value| > 0 && r.value[0] == '('
  {
    match e
    case Binary(_, l, op, rt) =>
      var (a, b) := (Print(l), Print(rt));
      if a.Some? && b.Some? then Some(Parenthesize(op.lexeme, [a.value, b.value])) else None
    case Grouping(_, x) =>
      var a := Print(x);
      if a.Some? then Some(Parenthesize("group", [a.value])) else None
    case Literal(_, v) => Some(LiteralText(v))
    case Unary(_, op, x) =>
      var a := Print(x);
      if a.Some? then Some(Parenthesize(op.lexeme, [a.value])) else None
    case Comma(_, l, rt) =>
      var (a, b) := (Print(l), Print(rt));
      if a.Some? && b.Some? then Some(Parenthesize(",", [a.value, b.value])) else None
    case Ternary(_, c, t, f) =>
      var (a, b, d) := (Print(c), Print(t), Print(f));
      if a.Some? && b.Some? && d.Some? then Some(Parenthesize("?", [a.value, b.value, d.value])) else None
    case _ => None
  }

  // ---- balance ------------------------------------------------------------

  /** Open parentheses minus closed ones. */
  function Net(s: string): int {
    if |s| == 0 then 0
    else Net(s[..|s| - 1]) + (if s[|s| - 1] == '(' then 1 else if s[|s| - 1] == ')' then -1 else 0)
  }

  /** A well-bracketed text: no prefix closes more than it opened, and the
      whole closes everything. */
  predicate Balanced(s: string) {
    Net(s) == 0 && forall k | 0 <= k <= |s| :: Net(s[..k]) >= 0
  }

  predicate NoParens(s: string) {
    forall i | 0 <= i < |s| :: s[i] != '(' && s[i] != ')'
  }

  /** The operators' lexemes and the literals' texts hold no parenthesis. */
  predicate PlainAtoms(e: Expr) {
    match e
    case Binary(_, l, op, r) => NoParens(op.lexeme) && PlainAtoms(l) && PlainAtoms(r)
    case Grouping(_, x) => PlainAtoms(x)
    case Literal(_, v) => NoParens(LiteralText(v))
    case Unary(_, op, x) => NoParens(op.lexeme) && PlainAtoms(x)
    case Comma(_, l, r) => PlainAtoms(l) && PlainAtoms(r)
    case Ternary(_, c, t, f) => PlainAtoms(c) && PlainAtoms(t) && PlainAtoms(f)
    case _ => true
  }

  lemma {:induction false} NetAppend(a: string, b: string)
    ensures Net(a + b) == Net(a) + Net(b)
    decreases |b|
  {
    if |b| == 0 {
      assert a + b == a;
    } else {
      var b' := b[..|b| - 1];
      assert (a + b)[..|a + b| - 1] == a + b';
      NetAppend(a, b');
      assert b[..|b| - 1] == b';
    }
  }

  lemma {:induction false} NetNoParens(s: string)
    requires NoParens(s)
    ensures Net(s) == 0
    decreases |s|
  {
    if |s| > 0 {
      NetNoParens(s[..|s| - 1]);
    }
  }

  /** Prefixes of a concatenation. */
  lemma PrefixOfAppend(a: string, b: string, k: nat)
    requires k <= |a + b|
    ensures k <= |a| ==> (a + b)[..k] == a[..k]
    ensures k > |a| ==> (a + b)[..k] == a + b[..k - |a|]
  {
  }

  /** A text whose every prefix stays at or above zero, concatenated with
      another, keeps that property when the second does. */
  lemma NonNegativeAppend(a: string, b: string)
    requires forall k | 0 <= k <= |a| :: Net(a[..k]) >= 0
    requires Net(a) >= 0
    requires forall k | 0 <= k <= |b| :: Net(b[..k]) >= 0
    ensures forall k | 0 <= k <= |a + b| :: Net((a + b)[..k]) >= 0
  {
    forall k | 0 <= k <= |a + b| ensures Net((a + b)[..k]) >= 0 {
      PrefixOfAppend(a, b, k);
      if k > |a| {
        NetAppend(a, b[..k - |a|]);
      }
    }
  }

  lemma NoParensNonNegative(s: string)
    requires NoParens(s)
    ensures Net(s) == 0 && forall k | 0 <= k <= |s| :: Net(s[..k]) >= 0
  {
    NetNoParens(s);
    forall k | 0 <= k <= |s| ensures Net(s[..k]) >= 0 {
      NetNoParens(s[..k]);
    }
  }

  /** Open: every prefix is at or above zero; the whole is at zero. */
  lemma BalancedAppend(a: string, b: string)
    requires Balanced(a) && Balanced(b)
    ensures Balanced(a + b)
  {
    NetAppend(a, b);
    NonNegativeAppend(a, b);
  }

  lemma {:induction false} JoinedBalanced(parts: seq<string>)
    requires forall i | 0 <= i < |parts| :: Balanced(parts[i])
    ensures Balanced(Joined(parts))
    decreases |parts|
  {
    if |parts| == 0 {
      assert Joined(parts) == "";
      assert forall k | 0 <= k <= 0 :: ""[..k] == "";
    } else {
      JoinedBalanced(parts[..|parts| - 1]);
      NoParensNonNegative(" ");
      BalancedAppend(Joined(parts[..|parts| - 1]), " ");
      BalancedAppend(Joined(parts[..|parts| - 1]) + " ", parts[|parts| - 1]);
    }
  }

  /** `(name parts)` is balanced when the name has no parenthesis and the
      parts are balanced. */
  lemma ParenthesizeBalanced(name: string, parts: seq<string>)
    requires NoParens(name)
    requires forall i | 0 <= i < |parts| :: Balanced(parts[i])
    ensures Balanced(Parenthesize(name, parts))
  {
    var inner := name + Joined(parts);
    JoinedBalanced(parts);
    NoParensNonNegative(name);
    BalancedAppend(name, Joined(parts));
    var s := "(" + inner + ")";
    assert s == Parenthesize(name, parts);
    NetAppend("(" + inner, ")");
    NetAppend("(", inner);
    assert Net("(") == 1 by { assert "("[..0] == ""; }
    assert Net(")") == -1 by { assert ")"[..0] == ""; }
    forall k | 0 <= k <= |s| ensures Net(s[..k]) >= 0 {
      if k == 0 {
        assert s[..k] == "";
      } else if k <= |inner| + 1 {
        assert s[..k] == "(" + inner[..k - 1];
        NetAppend("(", inner[..k - 1]);
      } else {
        assert s[..k] == s;
      }
    }
  }

  /** The printed form is an S-expression: its parentheses are balanced
      whenever no operator or literal text contains one. */
  lemma {:induction false} PrintBalanced(e: Expr)
    requires Printable(e) && PlainAtoms(e)
    ensures Balanced(Print(e).value)
  {
    match e
    case Binary(_, l, op, r) =>
      PrintBalanced(l); PrintBalanced(r);
      NodeBalanced(op.lexeme, [Print(l).value, Print(r).value]);
    case Grouping(_, x) =>
      PrintBalanced(x);
      NodeBalanced("group", [Print(x).value]);
    case Literal(_, v) =>
      NoParensNonNegative(LiteralText(v));
    case Unary(_, op, x) =>
      PrintBalanced(x);
      NodeBalanced(op.lexeme, [Print(x).value]);
    case Comma(_, l, r) =>
      PrintBalanced(l); PrintBalanced(r);
      NodeBalanced(",", [Print(l).value, Print(r).value]);
    case Ternary(_, c, t, f) =>
      PrintBalanced(c); PrintBalanced(t); PrintBalanced(f);
      NodeBalanced("?", [Print(c).value, Print(t).value, Print(f).value]);
  }

  /** A node of at most three balanced parts is balanced. */
  lemma NodeBalanced(name: string, parts: seq<string>)
    requires NoParens(name) && 1 <= |parts| <= 3
    requires Balanced(parts[0])
    requires |parts| >= 2 ==> Balanced(parts[1])
    requires |parts| == 3 ==> Balanced(parts[2])
    ensures Balanced(Parenthesize(name, parts))
  {
    ParenthesizeBalanced(name, parts);
  }

  /** The node ids play no part in the rendering. */
  lemma {:induction false} PrintIgnoresIds(e: Expr, e': Expr)
    requires SameShape(e, e')
    ensures Print(e) == Print(e')
  {
    match e
    case Binary(_, l, _, r) =>
      PrintIgnoresIds(l, e'.left); PrintIgnoresIds(r, e'.right);
      SameChildrenSamePrint(e, e');
    case Grouping(_, x) =>
      PrintIgnoresIds(x, e'.expression);
      SameChildrenSamePrint(e, e');
    case Unary(_, _, x) =>
      PrintIgnoresIds(x, e'.right);
      SameChildrenSamePrint(e, e');
    case Comma(_, l, r) =>
      PrintIgnoresIds(l, e'.left); PrintIgnoresIds(r, e'.right);
      SameChildrenSamePrint(e, e');
    case Ternary(_, c, t, f) =>
      PrintIgnoresIds(c, e'.cond); PrintIgnoresIds(t, e'.truthy); PrintIgnoresIds(f, e'.falsey);
      SameChildrenSamePrint(e, e');
    case Literal(_, _) =>
  }

  /** One step of `PrintIgnoresIds`: two nodes of the same kind and
      operator whose children print alike print alike. */
  lemma SameChildrenSamePrint(e: Expr, e': Expr)
    requires SameShape(e, e') && !e.Literal?
    requires e.Binary? || e.Comma? ==> Print(e.left) == Print(e'.left) && Print(e.right) == Print(e'.right)
    requires e.Unary? ==> Print(e.right) == Print(e'.right)
    requires e.Grouping? ==> Print(e.expression) == Print(e'.expression)
    requires e.Ternary? ==>
               Print(e.cond) == Print(e'.cond) && Print(e.truthy) == Print(e'.truthy) && Print(e.falsey) == Print(e'.falsey)
    ensures Print(e) == Print(e')
  {
  }

  /** Two printable trees that differ at most in their node ids. */
  predicate SameShape(e: Expr, e': Expr) {
    match e
    case Binary(_, l, op, r) => e'.Binary? && e'.operator == op && SameShape(l, e'.left) && SameShape(r, e'.right)
    case Grouping(_, x) => e'.Grouping? && SameShape(x, e'.expression)
    case Literal(_, v) => e'.Literal? && e'.lit == v
    case Unary(_, op, x) => e'.Unary? && e'.operator == op && SameShape(x, e'.right)
    case Comma(_, l, r) => e'.Comma? && SameShape(l, e'.left) && SameShape(r, e'.right)
    case Ternary(_, c, t, f) =>
      e'.Ternary? && SameShape(c, e'.cond) && SameShape(t, e'.truthy) && SameShape(f, e'.falsey)
    case _ => false
  }

  /** The two numbers of the sample render as written. */
  lemma SampleNumbers()
    ensures LiteralText(LNum(123.0)) == "123"
    ensures LiteralText(LNum(45.67)) == "45.67"
  {
    assert NatToString(123) == "123";
    assert FractionDigits(0.67, 16) == "67" by {
      assert (0.67 * 10.0).Floor == 6;
      assert (0.7 * 10.0).Floor == 7;
      assert FractionDigits(0.0, 14) == "";
      assert FractionDigits(0.7, 15) == "7";
    }
    assert (45.67).Floor == 45;
    assert NatToString(45) == "45";
  }

  lemma JoinedOne(a: string)
    ensures Joined([a]) == " " + a
  {
    assert Joined([]) == "";
  }

  lemma JoinedTwo(a: string, b: string)
    ensures Joined([a, b]) == " " + a + " " + b
  {
    assert [a, b][..1] == [a];
    JoinedOne(a);
  }

  lemma SampleNegation()
    ensures Print(Unary(1, Token(Minus, "-", LNil, 1), Literal(2, LNum(123.0)))) == Some("(- 123)")
  {
    SampleNumbers();
    JoinedOne("123");
    assert Parenthesize("-", ["123"]) == "(- 123)";
  }

  lemma SampleGroup()
    ensures Print(Grouping(3, Literal(4, LNum(45.67)))) == Some("(group 45.67)")
  {
    SampleNumbers();
    PrintGrouping(3, Literal(4, LNum(45.67)), "45.67");
    GroupText("45.67");
    assert "(group " + "45.67" + ")" == "(group 45.67)";
  }

  /** A group prints as `group` around its printed expression. */
  lemma PrintGrouping(id: nat, x: Expr, a: string)
    requires Print(x) == Some(a)
    ensures Print(Grouping(id, x)) == Some(Parenthesize("group", [a]))
  {
  }

  lemma GroupText(a: string)
    ensures Parenthesize("group", [a]) == "(group " + a + ")"
  {
    JoinedOne(a);
  }

  /** The printer's own sample: `-123 * (45.67)` prints as
      `(* (- 123) (group 45.67))`. */
  lemma SampleExpression()
    ensures Print(Binary(0, Unary(1, Token(Minus, "-", LNil, 1), Literal(2, LNum(123.0))),
                         Token(Star, "*", LNil, 1),
                         Grouping(3, Literal(4, LNum(45.67)))))
            == Some("(* (- 123) (group 45.67))")
  {
    var l := Unary(1, Token(Minus, "-", LNil, 1), Literal(2, LNum(123.0)));
    var r := Grouping(3, Literal(4, LNum(45.67)));
    var op := Token(Star, "*", LNil, 1);
    SampleNegation();
    SampleGroup();
    assert Print(Binary(0, l, op, r)) == Some(Parenthesize("*", ["(- 123)", "(group 45.67)"]));
    SampleProduct();
  }

  lemma SampleProduct()
    ensures Parenthesize("*", ["(- 123)", "(group 45.67)"]) == "(* (- 123) (group 45.67))"
  {
    JoinedTwo("(- 123)", "(group 45.67)");
  }
}
