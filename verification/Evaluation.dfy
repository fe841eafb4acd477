/** What evaluation means (contrib/cml2/cml.py, evaluate): the evaluator against a relation that is not computed. */
module Evaluation {
  import opened Options
  import opened Rulebase

  /** n is less than m, and m less than y. */
  predicate Leq(a: Trit, b: Trit) { a == b || a == N || b == Y }

  /** t is what the operator yields for x and y. */
  predicate Yields(op: Op, x: Trit, y: Trit, t: Trit) {
    match op
    case And => t != M && (t == Y <==> x != N && y != N)
    case Or => t != M && (t == N <==> x == N && y == N)
    case Implies => t != M && (t == N <==> x != N && y == N)
    case Equal => t != M && (t == Y <==> x == y)
    case Unequal => t != M && (t == N <==> x == y)
    case AtMost => t != M && (t == Y <==> Leq(x, y))
    case AtLeast => t != M && (t == Y <==> Leq(y, x))
    case Below => t != M && (t == N <==> Leq(y, x))
    case Above => t != M && (t == N <==> Leq(x, y))
    case Max => Leq(x, t) && Leq(y, t) && (t == x || t == y)
    case Min => Leq(t, x) && Leq(t, y) && (t == x || t == y)
    case Similar => if x == y then t == x else t == N
  }

  /** t is the value of a bool whose default has value u: anything but n counts as y. */
  predicate AsBool(u: Trit, t: Trit) { t != M && (t == N <==> u == N) }

  /** e means t under the bindings of v. */
  ghost predicate Means(r: Rules, v: View, e: Expr, t: Trit)
    decreases Bound(e), e
  {
    match e
    case Lit(u) => t == u
    case One => t == Y
    case Ref(s) =>
      if s in v then t == v[s]
      else if r.At(s).default.None? then t == N
      else exists u :: Means(r, v, r.At(s).default.value, u) && if r.At(s).kind.BoolKind? then AsBool(u, t) else t == u
    case Not(a) => t != M && (t == Y <==> Means(r, v, a, N))
    case Cond(g, a, b) => if Means(r, v, g, N) then Means(r, v, b, t) else Means(r, v, a, t)
    case Bin(op, a, b) => exists x, y :: Means(r, v, a, x) && Means(r, v, b, y) && Yields(op, x, y, t)
  }

  /** Every operator yields one value, that of the evaluator. */
  lemma OperatorExact(op: Op, x: Trit, y: Trit, t: Trit)
    ensures Yields(op, x, y, t) <==> t == Apply(op, x, y)
  {
  }

  /** An expression means its value and nothing else. */
  lemma {:induction false} EvalExact(r: Rules, v: View, e: Expr, t: Trit)
    ensures Means(r, v, e, t) <==> t == Eval(r, v, e)
    decreases Bound(e), e
  {
    hide Apply, Yields;
    match e
    case Lit(_) =>
    case One =>
    case Ref(s) =>
      if s !in v && r.At(s).default.Some? {
        forall u ensures Means(r, v, r.At(s).default.value, u) <==> u == Eval(r, v, r.At(s).default.value) {
          EvalExact(r, v, r.At(s).default.value, u);
        }
        assert Means(r, v, r.At(s).default.value, Eval(r, v, r.At(s).default.value));
      }
    case Not(a) => EvalExact(r, v, a, N);
    case Cond(g, a, b) =>
      EvalExact(r, v, g, N);
      EvalExact(r, v, a, t);
      EvalExact(r, v, b, t);
    case Bin(op, a, b) =>
      forall x ensures Means(r, v, a, x) <==> x == Eval(r, v, a) { EvalExact(r, v, a, x); }
      forall y ensures Means(r, v, b, y) <==> y == Eval(r, v, b) { EvalExact(r, v, b, y); }
      assert Means(r, v, a, Eval(r, v, a)) && Means(r, v, b, Eval(r, v, b));
      OperatorExact(op, Eval(r, v, a), Eval(r, v, b), t);
  }

  lemma Yielded(r: Rules, v: View, op: Op, a: Expr, b: Expr)
    ensures Yields(op, Eval(r, v, a), Eval(r, v, b), Eval(r, v, Bin(op, a, b)))
  {
    hide Yields, Apply, EvalSymbol;
    OperatorExact(op, Eval(r, v, a), Eval(r, v, b), Eval(r, v, Bin(op, a, b)));
  }

  /** `and`, `or` and `implies` look only at whether their operands are n, and yield y or n. */
  lemma LogicalLaws(r: Rules, v: View, a: Expr, b: Expr)
    ensures var x, y := Eval(r, v, a), Eval(r, v, b);
            && Eval(r, v, Bin(And, a, b)) == (if x != N && y != N then Y else N)
            && Eval(r, v, Bin(Or, a, b)) == (if x == N && y == N then N else Y)
            && Eval(r, v, Bin(Implies, a, b)) == (if x != N && y == N then N else Y)
            && Eval(r, v, Not(a)) == (if x == N then Y else N)
  {
    hide EvalSymbol;
  }

  lemma Ordered(x: Trit, y: Trit, eq: Trit, le: Trit, ge: Trit)
    requires Yields(Equal, x, y, eq) && Yields(AtMost, x, y, le) && Yields(AtLeast, x, y, ge)
    ensures eq == (if x == y then Y else N)
    ensures le == (if Leq(x, y) then Y else N) && ge == (if Leq(y, x) then Y else N)
  {
  }

  lemma Reversed(x: Trit, y: Trit, ne: Trit, gt: Trit, lt: Trit)
    requires Yields(Unequal, x, y, ne) && Yields(Above, x, y, gt) && Yields(Below, x, y, lt)
    ensures ne == (if x == y then N else Y)
    ensures gt == (if Leq(x, y) then N else Y) && lt == (if Leq(y, x) then N else Y)
  {
  }

  /** The comparisons are those of the order n, m, y. */
  lemma ComparisonLaws(r: Rules, v: View, a: Expr, b: Expr)
    ensures Eval(r, v, Bin(Equal, a, b)) == if Eval(r, v, a) == Eval(r, v, b) then Y else N
    ensures Eval(r, v, Bin(AtMost, a, b)) == if Leq(Eval(r, v, a), Eval(r, v, b)) then Y else N
    ensures Eval(r, v, Bin(AtLeast, a, b)) == if Leq(Eval(r, v, b), Eval(r, v, a)) then Y else N
  {
    hide Eval, Yields, Leq;
    Yielded(r, v, Equal, a, b);
    Yielded(r, v, AtMost, a, b);
    Yielded(r, v, AtLeast, a, b);
    Ordered(Eval(r, v, a), Eval(r, v, b), Eval(r, v, Bin(Equal, a, b)), Eval(r, v, Bin(AtMost, a, b)),
            Eval(r, v, Bin(AtLeast, a, b)));
  }

  /** The other three are their converses: each is y where those are n, and n elsewhere. */
  lemma ConverseLaws(r: Rules, v: View, a: Expr, b: Expr)
    ensures Eval(r, v, Bin(Unequal, a, b)) == if Eval(r, v, a) == Eval(r, v, b) then N else Y
    ensures Eval(r, v, Bin(Above, a, b)) == if Leq(Eval(r, v, a), Eval(r, v, b)) then N else Y
    ensures Eval(r, v, Bin(Below, a, b)) == if Leq(Eval(r, v, b), Eval(r, v, a)) then N else Y
  {
    hide Eval, Yields, Leq;
    Yielded(r, v, Unequal, a, b);
    Yielded(r, v, Above, a, b);
    Yielded(r, v, Below, a, b);
    Reversed(Eval(r, v, a), Eval(r, v, b), Eval(r, v, Bin(Unequal, a, b)), Eval(r, v, Bin(Above, a, b)),
             Eval(r, v, Bin(Below, a, b)));
  }

  /** `|` is the least upper bound, `&` the greatest lower bound, `$` the common value or n. */
  lemma BoundLaws(r: Rules, v: View, a: Expr, b: Expr, c: Trit)
    ensures var x, y := Eval(r, v, a), Eval(r, v, b);
            && (Leq(Eval(r, v, Bin(Max, a, b)), c) <==> Leq(x, c) && Leq(y, c))
            && (Leq(c, Eval(r, v, Bin(Min, a, b))) <==> Leq(c, x) && Leq(c, y))
            && (c != N ==> (Eval(r, v, Bin(Similar, a, b)) == c <==> x == c && y == c))
  {
    hide EvalSymbol;
  }

  /** A binding wins; without one a symbol has its default's value, a bool's as y or n, and n if it has no default. */
  lemma SymbolLaws(r: Rules, v: View, s: Id)
    ensures s in v ==> EvalSymbol(r, v, s) == v[s]
    ensures s !in v && r.At(s).default.None? ==> EvalSymbol(r, v, s) == N
    ensures s !in v && r.At(s).default.Some? ==>
              var u := Eval(r, v, r.At(s).default.value);
              EvalSymbol(r, v, s) == if r.At(s).kind.BoolKind? && u == M then Y else u
  {
  }

  // ----- what an expression rests on

  function Mentions(e: Expr): set<Id> {
    match e
    case Lit(_) => {}
    case One => {}
    case Ref(s) => {s}
    case Not(a) => Mentions(a)
    case Cond(g, a, b) => Mentions(g) + Mentions(a) + Mentions(b)
    case Bin(_, a, b) => Mentions(a) + Mentions(b)
  }

  /** From e to a settable symbol, through derived symbols whose derivations mention the next. */
  ghost predicate Route(r: Rules, e: Expr, path: seq<Id>)
    decreases |path|
  {
    && path != [] && path[0] in Mentions(e)
    && if |path| == 1 then !r.At(path[0]).derived
       else r.At(path[0]).derived && r.At(path[0]).default.Some? && Route(r, r.At(path[0]).default.value, path[1..])
  }

  /** An expression rests on exactly the settable symbols it mentions, by itself or through derivations. */
  lemma {:induction false} FlattenExact(r: Rules, e: Expr, s: Id)
    ensures s in Flatten(r, e) <==> exists path :: Route(r, e, path) && path[|path| - 1] == s
    decreases Bound(e), e
  {
    if s in Flatten(r, e) { FlattenRoute(r, e, s); }
    forall path | Route(r, e, path) ensures path[|path| - 1] in Flatten(r, e) { RouteFlattened(r, e, path); }
  }

  lemma {:induction false} FlattenRoute(r: Rules, e: Expr, s: Id)
    requires s in Flatten(r, e)
    ensures exists path :: Route(r, e, path) && path[|path| - 1] == s
    decreases Bound(e), e, 0
  {
    match e
    case Ref(t) =>
      if r.At(t).derived {
        FlattenRoute(r, r.At(t).default.value, s);
        var path :| Route(r, r.At(t).default.value, path) && path[|path| - 1] == s;
        assert ([t] + path)[1..] == path;
        assert Route(r, e, [t] + path);
      } else {
        assert Route(r, e, [t]);
      }
    case Not(a) => PartRoute(r, e, a, s);
    case Cond(g, a, b) =>
      if s in Flatten(r, g) { PartRoute(r, e, g, s); }
      else if s in Flatten(r, a) { PartRoute(r, e, a, s); }
      else { PartRoute(r, e, b, s); }
    case Bin(_, a, b) => if s in Flatten(r, a) { PartRoute(r, e, a, s); } else { PartRoute(r, e, b, s); }
    case _ =>
  }

  lemma {:induction false} PartRoute(r: Rules, e: Expr, part: Expr, s: Id)
    requires s in Flatten(r, part) && part < e && Bound(part) <= Bound(e) && Mentions(part) <= Mentions(e)
    ensures exists path :: Route(r, e, path) && path[|path| - 1] == s
    decreases Bound(part), part, 1
  {
    FlattenRoute(r, part, s);
    var path :| Route(r, part, path) && path[|path| - 1] == s;
    assert Route(r, e, path);
  }

  lemma {:induction false} RouteFlattened(r: Rules, e: Expr, path: seq<Id>)
    requires Route(r, e, path)
    ensures path[|path| - 1] in Flatten(r, e)
    decreases |path|
  {
    if |path| > 1 { RouteFlattened(r, r.At(path[0]).default.value, path[1..]); }
    MentionFlattened(r, e, path[0], path[|path| - 1]);
  }

  lemma {:induction false} MentionFlattened(r: Rules, e: Expr, t: Id, s: Id)
    requires t in Mentions(e) && s in Flatten(r, Ref(t))
    ensures s in Flatten(r, e)
  {
    match e
    case Not(a) => MentionFlattened(r, a, t, s);
    case Cond(g, a, b) =>
      if t in Mentions(g) { MentionFlattened(r, g, t, s); }
      else if t in Mentions(a) { MentionFlattened(r, a, t, s); }
      else { MentionFlattened(r, b, t, s); }
    case Bin(_, a, b) => if t in Mentions(a) { MentionFlattened(r, a, t, s); } else { MentionFlattened(r, b, t, s); }
    case _ =>
  }
}
