/**
 * The diagnostic printer (src/astPrinter.ts): a tree rendered as a fully
 * parenthesised prefix string. How a literal renders is a parameter: the
 * source reads a `value` field off the literal's value, which is not a
 * property of the values this model has.
 */
module AstPrinter {
  import opened Tokens
  import opened Ast

  // ---------------------------------------------------------------------
  // Rendering.
  // ---------------------------------------------------------------------

  /** The children of a node, each preceded by one space, in order. */
  function Children(parts: seq<string>): string {
    if |parts| == 0 then "" else Children(parts[..|parts| - 1]) + " " + parts[|parts| - 1]
  }

  /** `parenthesize`: an opening parenthesis, the name, each child after a space, a closing parenthesis. */
  function Parenthesize(name: string, parts: seq<string>): string {
    "(" + name + Children(parts) + ")"
  }

  /** The parenthesised text opens with `(` and the name, and closes with `)`. */
  lemma ParenthesizeShape(name: string, parts: seq<string>)
    ensures var s := Parenthesize(name, parts);
      && |s| >= |name| + 2 && s[0] == '(' && s[|s| - 1] == ')' && s[1..|name| + 1] == name
  {
    var s := Parenthesize(name, parts);
    assert s == "(" + name + (Children(parts) + ")");
  }

  /** The names `visitExpr` gives the nodes that carry no operator token. */
  const GroupName: string := "group"
  const TernaryName: string := "ternary"

  /**
   * The rendering `visitLiteral` performs as written: it reads a `value` field
   * off the literal's value, and numbers, booleans and strings have none, so
   * each renders as `undefined`.
   */
  function AsWrittenRender<N>(v: Value<N>): string {
    Undefined
  }

  /** JavaScript's text for the `undefined` value. */
  const Undefined: string := "undefined"

  /** The text `visitExpr` returns for a tree, with `render` standing for how a literal's value renders. */
  function Print<N>(e: Expr<N>, render: Value<N> -> string): string {
    match e
    case Binary(l, op, r) => Parenthesize(op.lexeme, [Print(l, render), Print(r, render)])
    case Grouping(x) => Parenthesize(GroupName, [Print(x, render)])
    case Literal(v) => render(v)
    case Unary(op, r) => Parenthesize(op.lexeme, [Print(r, render)])
    case Ternary(c, l, r) => Parenthesize(TernaryName, [Print(c, render), Print(l, render), Print(r, render)])
  }

  /** Each child follows a single space, in the order given. */
  lemma Spaced1(name: string, a: string)
    ensures Parenthesize(name, [a]) == "(" + name + " " + a + ")"
  {
    assert [a][..0] == [];
    assert Children([a]) == "" + " " + a;
  }

  lemma Spaced2(name: string, a: string, b: string)
    ensures Parenthesize(name, [a, b]) == "(" + name + " " + a + " " + b + ")"
  {
    assert [a, b][..1] == [a];
    assert [a][..0] == [];
    assert Children([a]) == "" + " " + a;
  }

  lemma Spaced3(name: string, a: string, b: string, d: string)
    ensures Parenthesize(name, [a, b, d]) == "(" + name + " " + a + " " + b + " " + d + ")"
  {
    assert [a][..0] == [];
    assert Children([a]) == "" + " " + a;
    assert [a, b][..1] == [a];
    assert Children([a, b]) == Children([a]) + " " + b;
    assert [a, b, d][..2] == [a, b];
    assert Children([a, b, d]) == Children([a, b]) + " " + d;
  }

  /** The five renderings of `visitExpr`, written out. */
  lemma PrintForms<N>(e: Expr<N>, render: Value<N> -> string)
    ensures e.Literal? ==> Print(e, render) == render(e.value)
    ensures e.Grouping? ==> Print(e, render) == "(" + GroupName + " " + Print(e.expression, render) + ")"
    ensures e.Unary? ==> Print(e, render) == "(" + e.operator.lexeme + " " + Print(e.right, render) + ")"
    ensures e.Binary? ==>
      Print(e, render) == "(" + e.operator.lexeme + " " + Print(e.left, render) + " " + Print(e.right, render) + ")"
    ensures e.Ternary? ==>
      Print(e, render) == "(" + TernaryName + " " + Print(e.condition, render) + " " + Print(e.left, render) + " " + Print(e.right, render) + ")"
  {
    match e
    case Literal(_) =>
    case Grouping(x) => Spaced1(GroupName, Print(x, render));
    case Unary(op, r) => Spaced1(op.lexeme, Print(r, render));
    case Binary(l, op, r) => Spaced2(op.lexeme, Print(l, render), Print(r, render));
    case Ternary(c, l, r) => Spaced3(TernaryName, Print(c, render), Print(l, render), Print(r, render));
  }

  /** A node that is not a literal prints inside parentheses headed by its operator's lexeme or its name. */
  lemma PrintShape<N>(e: Expr<N>, render: Value<N> -> string)
    requires !e.Literal?
    ensures var s := Print(e, render);
      && |s| >= 2 && s[0] == '(' && s[|s| - 1] == ')'
      && (e.Binary? || e.Unary? ==> s[1..|e.operator.lexeme| + 1] == e.operator.lexeme)
      && (e.Grouping? ==> s[1..|GroupName| + 1] == GroupName)
      && (e.Ternary? ==> s[1..|TernaryName| + 1] == TernaryName)
  {
    match e
    case Binary(l, op, r) => ParenthesizeShape(op.lexeme, [Print(l, render), Print(r, render)]);
    case Grouping(x) => ParenthesizeShape(GroupName, [Print(x, render)]);
    case Unary(op, r) => ParenthesizeShape(op.lexeme, [Print(r, render)]);
    case Ternary(c, l, r) => ParenthesizeShape(TernaryName, [Print(c, render), Print(l, render), Print(r, render)]);
  }

  // ---------------------------------------------------------------------
  // Parenthesis balance.
  // ---------------------------------------------------------------------

  /** Occurrences of `c` in `s`. */
  function Count(s: string, c: char): nat {
    if |s| == 0 then 0 else Count(s[..|s| - 1], c) + (if s[|s| - 1] == c then 1 else 0)
  }

  /** Opening minus closing parentheses. */
  function Excess(s: string): int {
    Count(s, '(') - Count(s, ')')
  }

  /** Every prefix opens at least as many parentheses as it closes, and the whole closes all it opens. */
  predicate Balanced(s: string) {
    Excess(s) == 0 && forall k :: 0 <= k <= |s| ==> Excess(s[..k]) >= 0
  }

  predicate ParenFree(s: string) {
    forall i :: 0 <= i < |s| ==> s[i] != '(' && s[i] != ')'
  }

  lemma {:induction false} CountConcat(a: string, b: string, c: char)
    ensures Count(a + b, c) == Count(a, c) + Count(b, c)
    decreases |b|
  {
    if |b| > 0 {
      assert (a + b)[..|a + b| - 1] == a + b[..|b| - 1];
      assert (a + b)[|a + b| - 1] == b[|b| - 1];
      CountConcat(a, b[..|b| - 1], c);
    } else {
      assert a + b == a;
    }
  }

  lemma {:induction false} ParenFreeCount(s: string)
    requires ParenFree(s)
    ensures Count(s, '(') == 0 && Count(s, ')') == 0
    decreases |s|
  {
    if |s| > 0 {
      ParenFreeCount(s[..|s| - 1]);
    }
  }

  lemma ParenFreeBalanced(s: string)
    requires ParenFree(s)
    ensures Balanced(s)
  {
    ParenFreeCount(s);
    forall k | 0 <= k <= |s|
      ensures Excess(s[..k]) == 0
    {
      ParenFreeCount(s[..k]);
    }
  }

  lemma BalancedConcat(a: string, b: string)
    requires Balanced(a) && Balanced(b)
    ensures Balanced(a + b)
  {
    CountConcat(a, b, '(');
    CountConcat(a, b, ')');
    forall k | 0 <= k <= |a + b|
      ensures Excess((a + b)[..k]) >= 0
    {
      if k <= |a| {
        assert (a + b)[..k] == a[..k];
      } else {
        assert (a + b)[..k] == a + b[..k - |a|];
        CountConcat(a, b[..k - |a|], '(');
        CountConcat(a, b[..k - |a|], ')');
      }
    }
  }

  lemma BalancedWrap(s: string)
    requires Balanced(s)
    ensures Balanced("(" + s + ")")
  {
    var w := "(" + s + ")";
    CountConcat("(" + s, ")", '(');
    CountConcat("(" + s, ")", ')');
    CountConcat("(", s, '(');
    CountConcat("(", s, ')');
    forall k | 0 <= k <= |w|
      ensures Excess(w[..k]) >= 0
    {
      if k == |w| {
        assert w[..k] == w;
      } else if k > 0 {
        assert w[..k] == "(" + s[..k - 1];
        CountConcat("(", s[..k - 1], '(');
        CountConcat("(", s[..k - 1], ')');
      }
    }
  }

  /** No operator lexeme and no literal rendering in the tree contains a parenthesis. */
  predicate Quiet<N>(e: Expr<N>, render: Value<N> -> string) {
    match e
    case Binary(l, op, r) => ParenFree(op.lexeme) && Quiet(l, render) && Quiet(r, render)
    case Grouping(x) => Quiet(x, render)
    case Literal(v) => ParenFree(render(v))
    case Unary(op, r) => ParenFree(op.lexeme) && Quiet(r, render)
    case Ternary(c, l, r) => Quiet(c, render) && Quiet(l, render) && Quiet(r, render)
  }

  /** Nodes other than literals: each prints exactly one pair of parentheses. */
  function Nodes<N>(e: Expr<N>): nat {
    match e
    case Binary(l, _, r) => 1 + Nodes(l) + Nodes(r)
    case Grouping(x) => 1 + Nodes(x)
    case Literal(_) => 0
    case Unary(_, r) => 1 + Nodes(r)
    case Ternary(c, l, r) => 1 + Nodes(c) + Nodes(l) + Nodes(r)
  }

  /** The parentheses of a printed tree balance whenever no lexeme or literal rendering brings its own. */
  lemma {:induction false} PrintBalanced<N>(e: Expr<N>, render: Value<N> -> string)
    requires Quiet(e, render)
    ensures Balanced(Print(e, render))
  {
    match e
    case Literal(v) => ParenFreeBalanced(render(v));
    case Grouping(x) =>
      PrintBalanced(x, render);
      Wrap1Balanced(GroupName, Print(x, render));
    case Unary(op, r) =>
      PrintBalanced(r, render);
      Wrap1Balanced(op.lexeme, Print(r, render));
    case Binary(l, op, r) =>
      PrintBalanced(l, render);
      PrintBalanced(r, render);
      Wrap2Balanced(op.lexeme, Print(l, render), Print(r, render));
    case Ternary(c, l, r) =>
      PrintBalanced(c, render);
      PrintBalanced(l, render);
      PrintBalanced(r, render);
      Wrap3Balanced(TernaryName, Print(c, render), Print(l, render), Print(r, render));
  }

  /** A node with one balanced child prints balanced. */
  lemma Wrap1Balanced(name: string, a: string)
    requires ParenFree(name) && Balanced(a)
    ensures Balanced(Parenthesize(name, [a]))
  {
    ParenFreeBalanced("");
    ChildBalanced("", a);
    assert Children([a]) == "" + " " + a by {
      assert [a][..0] == [];
    }
    NameBalanced(name, [a]);
  }

  /** A node with two balanced children prints balanced. */
  lemma Wrap2Balanced(name: string, a: string, b: string)
    requires ParenFree(name) && Balanced(a) && Balanced(b)
    ensures Balanced(Parenthesize(name, [a, b]))
  {
    ParenFreeBalanced("");
    ChildBalanced("", a);
    assert Children([a]) == "" + " " + a by {
      assert [a][..0] == [];
    }
    ChildBalanced(Children([a]), b);
    assert Children([a, b]) == Children([a]) + " " + b by {
      assert [a, b][..1] == [a];
    }
    NameBalanced(name, [a, b]);
  }

  /** A node with three balanced children prints balanced. */
  lemma Wrap3Balanced(name: string, a: string, b: string, d: string)
    requires ParenFree(name) && Balanced(a) && Balanced(b) && Balanced(d)
    ensures Balanced(Parenthesize(name, [a, b, d]))
  {
    var ab := Children([a, b]);
    assert Balanced(ab) by {
      ParenFreeBalanced("");
      ChildBalanced("", a);
      assert Children([a]) == "" + " " + a by {
        assert [a][..0] == [];
      }
      ChildBalanced(Children([a]), b);
      assert [a, b][..1] == [a];
    }
    ChildBalanced(ab, d);
    assert Children([a, b, d]) == ab + " " + d by {
      assert [a, b, d][..2] == [a, b];
    }
    NameBalanced(name, [a, b, d]);
  }

  /** Appending one balanced child after a space keeps a balanced text balanced. */
  lemma ChildBalanced(pre: string, x: string)
    requires Balanced(pre) && Balanced(x)
    ensures Balanced(pre + " " + x)
  {
    ParenFreeBalanced(" ");
    BalancedConcat(pre, " ");
    BalancedConcat(pre + " ", x);
  }

  /** A parenthesised node with a quiet name and balanced children is balanced. */
  lemma NameBalanced(name: string, parts: seq<string>)
    requires ParenFree(name) && Balanced(Children(parts))
    ensures Balanced(Parenthesize(name, parts))
  {
    ParenFreeBalanced(name);
    BalancedConcat(name, Children(parts));
    BalancedWrap(name + Children(parts));
    assert "(" + name + Children(parts) + ")" == "(" + (name + Children(parts)) + ")";
  }

  /** Then the printed tree has one opening parenthesis per node that is not a literal. */
  lemma {:induction false} PrintOpenings<N>(e: Expr<N>, render: Value<N> -> string)
    requires Quiet(e, render)
    ensures Count(Print(e, render), '(') == Nodes(e)
  {
    match e
    case Literal(v) => ParenFreeCount(render(v));
    case Grouping(x) =>
      PrintOpenings(x, render);
      Wrap1Count(GroupName, Print(x, render));
    case Unary(op, r) =>
      PrintOpenings(r, render);
      Wrap1Count(op.lexeme, Print(r, render));
    case Binary(l, op, r) =>
      PrintOpenings(l, render);
      PrintOpenings(r, render);
      Wrap2Count(op.lexeme, Print(l, render), Print(r, render));
    case Ternary(c, l, r) =>
      PrintOpenings(c, render);
      PrintOpenings(l, render);
      PrintOpenings(r, render);
      TernaryCount(c, l, r, render);
  }

  /** A ternary node's opening parentheses: its own and its three children's. */
  lemma TernaryCount<N>(c: Expr<N>, l: Expr<N>, r: Expr<N>, render: Value<N> -> string)
    ensures Count(Print(Ternary(c, l, r), render), '(') == 1 + Count(Print(c, render), '(') + Count(Print(l, render), '(') + Count(Print(r, render), '(')
  {
    var a, b, d := Print(c, render), Print(l, render), Print(r, render);
    assert Print(Ternary(c, l, r), render) == Parenthesize(TernaryName, [a, b, d]);
    Wrap3Count(TernaryName, a, b, d);
  }

  /** A node's own opening parenthesis plus its children's, by number of children. */
  lemma Wrap1Count(name: string, a: string)
    requires ParenFree(name)
    ensures Count(Parenthesize(name, [a]), '(') == 1 + Count(a, '(')
  {
    WrappedCount(name, [a]);
    OneChildCount(a);
  }

  lemma Wrap2Count(name: string, a: string, b: string)
    requires ParenFree(name)
    ensures Count(Parenthesize(name, [a, b]), '(') == 1 + Count(a, '(') + Count(b, '(')
  {
    WrappedCount(name, [a, b]);
    TwoChildCount(a, b);
  }

  lemma Wrap3Count(name: string, a: string, b: string, d: string)
    requires ParenFree(name)
    ensures Count(Parenthesize(name, [a, b, d]), '(') == 1 + Count(a, '(') + Count(b, '(') + Count(d, '(')
  {
    WrappedCount(name, [a, b, d]);
    ThreeChildCount(a, b, d);
  }

  /** The opening parentheses of a parenthesised node: its own one and its children's. */
  lemma WrappedCount(name: string, parts: seq<string>)
    requires ParenFree(name)
    ensures Count(Parenthesize(name, parts), '(') == 1 + Count(Children(parts), '(')
  {
    ParenFreeCount(name);
    CountConcat("(" + name + Children(parts), ")", '(');
    CountConcat("(" + name, Children(parts), '(');
    CountConcat("(", name, '(');
  }

  /** One child after a space adds exactly that child's parentheses. */
  lemma ChildCount(pre: string, x: string)
    ensures Count(pre + " " + x, '(') == Count(pre, '(') + Count(x, '(')
  {
    CountConcat(pre + " ", x, '(');
    CountConcat(pre, " ", '(');
  }

  lemma OneChildCount(a: string)
    ensures Count(Children([a]), '(') == Count(a, '(')
  {
    assert [a][..0] == [];
    ChildCount("", a);
  }

  lemma TwoChildCount(a: string, b: string)
    ensures Count(Children([a, b]), '(') == Count(a, '(') + Count(b, '(')
  {
    OneChildCount(a);
    assert [a, b][..1] == [a];
    ChildCount(Children([a]), b);
  }

  lemma ThreeChildCount(a: string, b: string, d: string)
    ensures Count(Children([a, b, d]), '(') == Count(a, '(') + Count(b, '(') + Count(d, '(')
  {
    TwoChildCount(a, b);
    assert [a, b, d][..2] == [a, b];
    ChildCount(Children([a, b]), d);
  }
}
