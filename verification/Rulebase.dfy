/** Symbols, expressions and their evaluation (contrib/cml2/cml.py), over trit-valued rulebases. */
module Rulebase {
  import opened Options

  type Id = nat

  datatype Trit = N | M | Y {
    function Rank(): int {
      match this
      case N => 0
      case M => 1
      case Y => 2
    }

    predicate Less(other: Trit) { Rank() < other.Rank() }
  }

  function Tritify(b: bool): Trit { if b then Y else N }

  /** Similar is `$`, Min is `&` and Max is `|` of the rule language. */
  datatype Op = And | Or | Implies | Equal | Unequal | AtMost | AtLeast | Below | Above | Max | Min | Similar {
    predicate Logical() { And? || Or? || Implies? }
    predicate Relational() { Equal? || Unequal? || AtMost? || AtLeast? || Below? || Above? }
  }

  /** One is the Python integer 1, which the partial evaluator can put in place of a formula. */
  datatype Expr =
    | Lit(value: Trit)
    | One
    | Ref(symbol: Id)
    | Not(arg: Expr)
    | Cond(guard: Expr, yes: Expr, no: Expr)
    | Bin(op: Op, left: Expr, right: Expr)

  datatype Kind = BoolKind | TritKind | MenuKind | ChoicesKind | MessageKind

  datatype Symbol = Symbol(
    kind: Kind,
    derived: bool,
    default: Option<Expr>,
    menu: Option<Id>,
    ancestors: seq<Id>,
    dependents: seq<Id>,
    choicegroup: seq<Id>,
    items: seq<Id>,
    visibility: Option<Expr>)
  {
    predicate Logical() { kind.BoolKind? || kind.TritKind? }
  }

  const NO_SYMBOL := Symbol(MenuKind, false, None, None, [], [], [], [], None)

  /** `dictionary` lists the symbols in the order in which the source's symbol table is iterated. */
  datatype RawRules = RawRules(
    symbols: seq<Symbol>,
    dictionary: seq<Id>,
    tritTie: Option<Id>,
    constraints: seq<Expr>)
  {
    function At(s: Id): Symbol { if s < |symbols| then symbols[s] else NO_SYMBOL }
  }

  /** One more than the largest symbol an expression mentions. */
  function Bound(e: Expr): nat {
    match e
    case Lit(_) => 0
    case One => 0
    case Ref(s) => s + 1
    case Not(a) => Bound(a)
    case Cond(g, a, b) => Maximum(Bound(g), Maximum(Bound(a), Bound(b)))
    case Bin(_, a, b) => Maximum(Bound(a), Bound(b))
  }

  function Maximum(a: nat, b: nat): nat { if a < b then b else a }

  /** The default graph is acyclic: symbols are numbered so that a default mentions smaller numbers only. */
  predicate Acyclic(r: RawRules) {
    forall s | 0 <= s < |r.symbols| && r.symbols[s].default.Some? :: Bound(r.symbols[s].default.value) <= s
  }

  type Rules = r: RawRules | Acyclic(r) witness RawRules([], [], None, [])

  /** The current value of every symbol that has a visible binding. */
  type View = map<Id, Trit>

  function Apply(op: Op, a: Trit, b: Trit): Trit {
    match op
    case And => Tritify(a != N && b != N)
    case Or => Tritify(a != N || b != N)
    case Implies => Tritify(!(a != N && b == N))
    case Equal => Tritify(a == b)
    case Unequal => Tritify(a != b)
    case AtMost => Tritify(a.Rank() <= b.Rank())
    case AtLeast => Tritify(a.Rank() >= b.Rank())
    case Below => Tritify(a.Rank() < b.Rank())
    case Above => Tritify(a.Rank() > b.Rank())
    case Max => if a.Less(b) then b else a
    case Min => if a.Less(b) then a else b
    case Similar => if a != b then N else a
  }

  function Eval(r: Rules, v: View, e: Expr): Trit
    decreases Bound(e), 1, e
  {
    match e
    case Lit(t) => t
    case One => Y
    case Ref(s) => EvalSymbol(r, v, s)
    case Not(a) => Tritify(Eval(r, v, a) == N)
    case Cond(g, a, b) => if Eval(r, v, g) != N then Eval(r, v, a) else Eval(r, v, b)
    case Bin(op, a, b) => Apply(op, Eval(r, v, a), Eval(r, v, b))
  }

  /** A binding wins over the default; the value of a bool's default is cast to y or n. */
  function EvalSymbol(r: Rules, v: View, s: Id): Trit
    decreases s + 1, 0
  {
    if s in v then v[s]
    else if r.At(s).default.Some? then
      var t := Eval(r, v, r.At(s).default.value);
      if r.At(s).kind.BoolKind? then Tritify(t != N) else t
    else N
  }

  /** The settable symbols an expression rests on, looking through derived symbols. */
  function Flatten(r: Rules, e: Expr): seq<Id>
    decreases Bound(e), e
  {
    match e
    case Lit(_) => []
    case One => []
    case Ref(s) =>
      if !r.At(s).derived then [s]
      else if r.At(s).default.Some? then Flatten(r, r.At(s).default.value)
      else []
    case Not(a) => Flatten(r, a)
    case Cond(g, a, b) => Flatten(r, g) + Flatten(r, a) + Flatten(r, b)
    case Bin(_, a, b) => Flatten(r, a) + Flatten(r, b)
  }

  /** The distinct formulas of `formulas` that rest on symbol s, in order. */
  function Watching(r: Rules, formulas: seq<Expr>, s: Id): seq<Expr> {
    if formulas == [] then []
    else
      var front := Watching(r, formulas[..|formulas| - 1], s);
      var e := formulas[|formulas| - 1];
      if s in Flatten(r, e) && e !in front then front + [e] else front
  }

  /** symbol.constraints of every symbol, as optimize_constraint_access leaves it. */
  function Access(r: Rules, formulas: seq<Expr>): (m: map<Id, seq<Expr>>) {
    map s: Id | s < |r.symbols| :: Watching(r, formulas, s)
  }

  ghost predicate DerivedUnbound(r: Rules, v: View) {
    forall s: Id | s in v :: !r.At(s).derived
  }

  ghost predicate AgreeOn(r: Rules, v: View, w: View, ids: seq<Id>) {
    forall s | s in ids :: EvalSymbol(r, v, s) == EvalSymbol(r, w, s)
  }

  /** An expression's value depends on nothing but the symbols in its flattening. */
  lemma {:induction false} EvalDependsOnFlatten(r: Rules, v: View, w: View, e: Expr)
    requires DerivedUnbound(r, v) && DerivedUnbound(r, w)
    requires AgreeOn(r, v, w, Flatten(r, e))
    ensures Eval(r, v, e) == Eval(r, w, e)
    decreases Bound(e), e
  {
    match e
    case Lit(_) =>
    case One =>
    case Ref(s) =>
      if r.At(s).derived && r.At(s).default.Some? {
        EvalDependsOnFlatten(r, v, w, r.At(s).default.value);
      }
    case Not(a) => EvalDependsOnFlatten(r, v, w, a);
    case Cond(g, a, b) =>
      EvalDependsOnFlatten(r, v, w, g);
      EvalDependsOnFlatten(r, v, w, a);
      EvalDependsOnFlatten(r, v, w, b);
    case Bin(_, a, b) =>
      EvalDependsOnFlatten(r, v, w, a);
      EvalDependsOnFlatten(r, v, w, b);
  }

  ghost predicate NoRepeats<T>(s: seq<T>) {
    forall i, j | 0 <= i < j < |s| :: s[i] != s[j]
  }

  /** A symbol watches exactly the formulas that rest on it, each of them once. */
  lemma {:induction false} WatchingExact(r: Rules, formulas: seq<Expr>, s: Id)
    ensures forall e :: e in Watching(r, formulas, s) <==> e in formulas && s in Flatten(r, e)
    ensures NoRepeats(Watching(r, formulas, s))
  {
    if formulas == [] {
    } else {
      var front, last := formulas[..|formulas| - 1], formulas[|formulas| - 1];
      WatchingExact(r, front, s);
      assert formulas == front + [last];
    }
  }

  /** So a formula's value can only change when a symbol that watches it changes value. */
  lemma WatchersSeeEveryChange(r: Rules, formulas: seq<Expr>, v: View, w: View, e: Expr)
    requires DerivedUnbound(r, v) && DerivedUnbound(r, w)
    requires e in formulas && Eval(r, v, e) != Eval(r, w, e)
    ensures exists s :: EvalSymbol(r, v, s) != EvalSymbol(r, w, s) && e in Watching(r, formulas, s)
  {
    if AgreeOn(r, v, w, Flatten(r, e)) {
      EvalDependsOnFlatten(r, v, w, e);
      assert false;
    } else {
      var s :| s in Flatten(r, e) && EvalSymbol(r, v, s) != EvalSymbol(r, w, s);
      WatchingExact(r, formulas, s);
    }
  }
}
