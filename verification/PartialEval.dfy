/** The partial evaluator that simplifies formulas over frozen symbols (contrib/cml2/cmlsystem.py, eval_frozen). */
module PartialEval {
  import opened Options
  import opened Rulebase

  /**
   * What eval_frozen returns: None, a trit, or the Python integer that `not None` yields. Fault stands for
   * a comparison of that integer with a trit, or a derived symbol without a derivation, which are not modelled.
   */
  datatype Frozen = Unknown | Const(value: Trit) | Truth | Fault {
    predicate Holds() { Truth? || (Const? && value != N) }
    predicate Known() { Truth? || Const? }
  }

  /** `fixed` holds the frozen and the chilled symbols. */
  function EvalFrozen(r: Rules, fixed: set<Id>, v: View, e: Expr): Frozen
    decreases Bound(e), e
  {
    match e
    case Lit(t) => Const(t)
    case One => Truth
    case Ref(s) =>
      if s in fixed then Const(EvalSymbol(r, v, s))
      else if !r.At(s).derived then Unknown
      else if r.At(s).default.Some? then EvalFrozen(r, fixed, v, r.At(s).default.value)
      else Fault
    case Not(a) =>
      var below := EvalFrozen(r, fixed, v, a);
      if !below.Known() then below else Const(if below.Holds() then N else M)
    case Cond(g, a, b) =>
      var guard := EvalFrozen(r, fixed, v, g);
      if !guard.Known() then guard
      else if guard.Holds() then EvalFrozen(r, fixed, v, a)
      else EvalFrozen(r, fixed, v, b)
    case Bin(op, a, b) => Combine(op, EvalFrozen(r, fixed, v, a), EvalFrozen(r, fixed, v, b))
  }

  function Combine(op: Op, a: Frozen, b: Frozen): Frozen {
    if a.Fault? || b.Fault? then Fault
    else if a.Const? && b.Const? then Const(Apply(op, a.value, b.value))
    else if a.Known() && b.Known() then
      if op.Logical() then Const(Apply(op, Tritify(a.Holds()), Tritify(b.Holds()))) else Fault
    else if a.Unknown? && b.Unknown? then Unknown
    else match op
      case And => if a == Const(N) || b == Const(N) then Const(N) else Unknown
      case Or => if (a.Const? && a.value != N) || (b.Const? && b.value != N) then Const(Y) else Unknown
      case Implies => if a == Const(N) then Const(Y) else if a.Unknown? && b == Const(N) then Truth else Unknown
      case _ => Unknown
  }

  /** A valuation the frozen symbols leave possible. */
  ghost predicate Agrees(r: Rules, fixed: set<Id>, v: View, w: View) {
    DerivedUnbound(r, w) && forall s | s in fixed :: EvalSymbol(r, w, s) == EvalSymbol(r, v, s)
  }

  /** Putting the result in place of the formula would keep its meaning whatever the other symbols are set to. */
  ghost predicate Sound(r: Rules, fixed: set<Id>, v: View, e: Expr) {
    match EvalFrozen(r, fixed, v, e)
    case Unknown => true
    case Const(t) => forall w | Agrees(r, fixed, v, w) :: Eval(r, w, e) == t
    case Truth => forall w | Agrees(r, fixed, v, w) :: Eval(r, w, e) != N
    case Fault => false
  }

  /** The evaluation takes none of the three faulty steps. */
  predicate Clean(r: Rules, fixed: set<Id>, v: View, e: Expr)
    decreases Bound(e), e
  {
    match e
    case Lit(_) => true
    case One => false
    case Ref(s) =>
      s in fixed || !r.At(s).derived ||
      (r.At(s).default.Some? && Clean(r, fixed, v, r.At(s).default.value) &&
       !(r.At(s).kind.BoolKind? && EvalFrozen(r, fixed, v, r.At(s).default.value) == Const(M)))
    case Not(a) => Clean(r, fixed, v, a) && EvalFrozen(r, fixed, v, a) != Const(N)
    case Cond(g, a, b) => Clean(r, fixed, v, g) && Clean(r, fixed, v, a) && Clean(r, fixed, v, b)
    case Bin(op, a, b) =>
      Clean(r, fixed, v, a) && Clean(r, fixed, v, b) &&
      !(op.Implies? && EvalFrozen(r, fixed, v, a).Unknown? && EvalFrozen(r, fixed, v, b) == Const(N))
  }

  lemma {:induction false} CleanResult(r: Rules, fixed: set<Id>, v: View, e: Expr, w: View)
    requires Clean(r, fixed, v, e) && Agrees(r, fixed, v, w)
    ensures var f := EvalFrozen(r, fixed, v, e); f.Unknown? || f == Const(Eval(r, w, e))
    decreases Bound(e), e
  {
    match e
    case Lit(_) =>
    case Ref(s) =>
      if s !in fixed && r.At(s).derived {
        CleanResult(r, fixed, v, r.At(s).default.value, w);
      }
    case Not(a) => CleanResult(r, fixed, v, a, w);
    case Cond(g, a, b) =>
      CleanResult(r, fixed, v, g, w);
      CleanResult(r, fixed, v, a, w);
      CleanResult(r, fixed, v, b, w);
    case Bin(_, a, b) =>
      CleanResult(r, fixed, v, a, w);
      CleanResult(r, fixed, v, b, w);
  }

  /** A formula evaluated without a faulty step keeps its meaning under every valuation of the unfrozen symbols. */
  lemma CleanIsSound(r: Rules, fixed: set<Id>, v: View, e: Expr)
    requires Clean(r, fixed, v, e)
    ensures Sound(r, fixed, v, e)
    ensures DerivedUnbound(r, v) ==> EvalFrozen(r, fixed, v, e).Unknown? || EvalFrozen(r, fixed, v, e).Const?
  {
    forall w | Agrees(r, fixed, v, w)
      ensures var f := EvalFrozen(r, fixed, v, e); f.Unknown? || f == Const(Eval(r, w, e))
    {
      CleanResult(r, fixed, v, e, w);
    }
    CleanNeverTruth(r, fixed, v, e);
  }

  lemma {:induction false} CleanNeverTruth(r: Rules, fixed: set<Id>, v: View, e: Expr)
    requires Clean(r, fixed, v, e)
    ensures EvalFrozen(r, fixed, v, e).Unknown? || EvalFrozen(r, fixed, v, e).Const?
    decreases Bound(e), e
  {
    match e
    case Lit(_) =>
    case Ref(s) =>
      if s !in fixed && r.At(s).derived {
        CleanNeverTruth(r, fixed, v, r.At(s).default.value);
      }
    case Not(a) => CleanNeverTruth(r, fixed, v, a);
    case Cond(g, a, b) =>
      CleanNeverTruth(r, fixed, v, g);
      CleanNeverTruth(r, fixed, v, a);
      CleanNeverTruth(r, fixed, v, b);
    case Bin(_, a, b) =>
      CleanNeverTruth(r, fixed, v, a);
      CleanNeverTruth(r, fixed, v, b);
  }

  /** First faulty step: the negation of a frozen n is reported as m although it evaluates to y. */
  lemma NotExact(r: Rules, fixed: set<Id>, v: View, a: Expr)
    requires DerivedUnbound(r, v) && Clean(r, fixed, v, a)
    ensures Sound(r, fixed, v, Not(a)) <==> EvalFrozen(r, fixed, v, a) != Const(N)
  {
    if EvalFrozen(r, fixed, v, a) == Const(N) {
      assert Agrees(r, fixed, v, v);
      CleanResult(r, fixed, v, a, v);
      assert Eval(r, v, Not(a)) == Y;
    } else {
      CleanIsSound(r, fixed, v, Not(a));
    }
  }

  /** Second faulty step: a derived bool whose derivation freezes to m is reported as m although it is cast to y. */
  lemma DerivedExact(r: Rules, fixed: set<Id>, v: View, s: Id)
    requires DerivedUnbound(r, v) && s !in fixed
    requires r.At(s).derived && r.At(s).kind.BoolKind? && r.At(s).default.Some?
    requires Clean(r, fixed, v, r.At(s).default.value)
    ensures Sound(r, fixed, v, Ref(s)) <==> EvalFrozen(r, fixed, v, r.At(s).default.value) != Const(M)
  {
    if EvalFrozen(r, fixed, v, r.At(s).default.value) == Const(M) {
      assert Agrees(r, fixed, v, v);
      assert Eval(r, v, Ref(s)) != M;
    } else {
      CleanIsSound(r, fixed, v, Ref(s));
    }
  }

  ghost predicate CanHold(r: Rules, fixed: set<Id>, v: View, a: Expr) {
    exists w :: Agrees(r, fixed, v, w) && Eval(r, w, a) != N
  }

  /** Third faulty step: an open premise with a conclusion frozen at n is reported as true. */
  lemma ImpliesExact(r: Rules, fixed: set<Id>, v: View, a: Expr, b: Expr)
    requires DerivedUnbound(r, v) && Clean(r, fixed, v, a) && Clean(r, fixed, v, b)
    ensures Sound(r, fixed, v, Bin(Implies, a, b)) <==>
            !(EvalFrozen(r, fixed, v, a).Unknown? && EvalFrozen(r, fixed, v, b) == Const(N) && CanHold(r, fixed, v, a))
  {
    var e := Bin(Implies, a, b);
    var f, g := EvalFrozen(r, fixed, v, a), EvalFrozen(r, fixed, v, b);
    assert EvalFrozen(r, fixed, v, e) == Combine(Implies, f, g);
    assert Clean(r, fixed, v, e) <==> !(f.Unknown? && g == Const(N));
    assert forall w :: Eval(r, w, e) == Apply(Implies, Eval(r, w, a), Eval(r, w, b));
    CleanIsSound(r, fixed, v, b);
    hide Clean, EvalFrozen, Eval, Agrees;
    if f.Unknown? && g == Const(N) {
      if CanHold(r, fixed, v, a) {
        var w :| Agrees(r, fixed, v, w) && Eval(r, w, a) != N;
        assert Eval(r, w, e) == N;
      } else {
        forall w | Agrees(r, fixed, v, w) ensures Eval(r, w, e) != N {
          assert Eval(r, w, a) == N;
        }
      }
    } else {
      CleanIsSound(r, fixed, v, e);
    }
  }

  /** When the premise is a settable symbol, the guard of the faulty branch is the exact condition. */
  lemma SymbolImpliesExact(r: Rules, fixed: set<Id>, v: View, s: Id, b: Expr)
    requires DerivedUnbound(r, v) && !r.At(s).derived && forall f | f in fixed :: !r.At(f).derived
    requires Clean(r, fixed, v, b)
    ensures Sound(r, fixed, v, Bin(Implies, Ref(s), b)) <==>
            !(EvalFrozen(r, fixed, v, Ref(s)).Unknown? && EvalFrozen(r, fixed, v, b) == Const(N))
  {
    ImpliesExact(r, fixed, v, Ref(s), b);
    if s !in fixed {
      var w := (map f | f in fixed :: EvalSymbol(r, v, f))[s := Y];
      assert Agrees(r, fixed, v, w);
      assert Eval(r, w, Ref(s)) == Y;
    }
  }

  /** Bools 0 and 1, a trit 2, and a derived symbol 3 whose derivation is `0 ? 1 : 2`, so that it is typed as a bool. */
  function Derivation(): Rules {
    var free := Symbol(BoolKind, false, None, None, [], [], [], [], None);
    RawRules([free, free, free.(kind := TritKind),
              Symbol(BoolKind, true, Some(Cond(Ref(0), Ref(1), Ref(2))), None, [], [], [], [], None)],
             [0, 1, 2, 3], None, [])
  }

  /**
   * The three faulty steps on concrete inputs. With 0 frozen at n and 1 free, `1 implies 0` is reported true, `not 0`
   * is reported m and so `(not 0) == y` false, and `(1 implies 0) == 0` compares an integer. With 2 frozen at m the
   * derived bool 3 is reported m, and so `3 == y` false, although its value is y.
   */
  lemma FaultySteps()
    ensures var r, v := Derivation(), map[2 := M];
            && EvalFrozen(r, {0}, v, Bin(Implies, Ref(1), Ref(0))) == Truth
            && Eval(r, v[1 := Y], Bin(Implies, Ref(1), Ref(0))) == N
            && EvalFrozen(r, {0}, v, Bin(Equal, Not(Ref(0)), Lit(Y))) == Const(N)
            && Eval(r, v, Bin(Equal, Not(Ref(0)), Lit(Y))) == Y
            && EvalFrozen(r, {0}, v, Bin(Equal, Bin(Implies, Ref(1), Ref(0)), Ref(0))) == Fault
            && EvalFrozen(r, {0, 2}, v, Ref(3)) == Const(M) && EvalSymbol(r, v, 3) == Y
            && EvalFrozen(r, {0, 2}, v, Bin(Equal, Ref(3), Lit(Y))) == Const(N)
            && Eval(r, v, Bin(Equal, Ref(3), Lit(Y))) == Y
  {
    var r, v := Derivation(), map[2 := M];
    FreeAtN(r, v, 0);
    FreeAtN(r, v[1 := Y], 0);
    assert EvalFrozen(r, {0}, v, Bin(Implies, Ref(1), Ref(0))) == Truth;
    assert EvalFrozen(r, {0}, v, Not(Ref(0))) == Const(M);
    var d := Cond(Ref(0), Ref(1), Ref(2));
    assert r.At(3).default == Some(d) && Eval(r, v, d) == M;
    assert EvalFrozen(r, {0, 2}, v, d) == Const(M);
  }

  lemma FreeAtN(r: Rules, v: View, s: Id)
    requires r == Derivation() && s < 2 && s !in v
    ensures EvalSymbol(r, v, s) == N
  {
  }

  // ----- what the faulty steps make of a formula

  /**
   * Whether eval_frozen answers, and the formula it takes e for when it does: a subformula at a faulty step is replaced
   * by what that step reports. The guards of the steps, on values at v: `not` over a decided n; a derived symbol,
   * whose derivation is not cast; `implies` with an open premise and a conclusion decided to be n.
   */
  function Decided(r: Rules, fixed: set<Id>, v: View, e: Expr): bool
    decreases Bound(e), e
  {
    match e
    case Lit(_) => true
    case One => true
    case Ref(s) =>
      s in fixed || (r.At(s).derived && r.At(s).default.Some? && Decided(r, fixed, v, r.At(s).default.value))
    case Not(a) => Decided(r, fixed, v, a)
    case Cond(g, a, b) =>
      Decided(r, fixed, v, g) && Decided(r, fixed, v, if Eval(r, v, Patched(r, fixed, v, g)) != N then a else b)
    case Bin(op, a, b) =>
      var (known, other) := (Decided(r, fixed, v, a), Decided(r, fixed, v, b));
      var (x, y) := (Patched(r, fixed, v, a), Patched(r, fixed, v, b));
      || (known && other)
      || (op.And? && ((known && Eval(r, v, x) == N) || (other && Eval(r, v, y) == N)))
      || (op.Or? && ((known && x != One && Eval(r, v, x) != N) || (other && y != One && Eval(r, v, y) != N)))
      || (op.Implies? && ((known && Eval(r, v, x) == N) || (other && Eval(r, v, y) == N)))
  }

  function Patched(r: Rules, fixed: set<Id>, v: View, e: Expr): Expr
    decreases Bound(e), e
  {
    match e
    case Lit(_) => e
    case One => e
    case Ref(s) =>
      if s in fixed || !r.At(s).derived || r.At(s).default.None? then e
      else Patched(r, fixed, v, r.At(s).default.value)
    case Not(a) =>
      var x := Patched(r, fixed, v, a);
      if Decided(r, fixed, v, a) && Eval(r, v, x) == N then Lit(M) else Not(x)
    case Cond(g, a, b) =>
      var x := Patched(r, fixed, v, g);
      if !Decided(r, fixed, v, g) then e
      else Patched(r, fixed, v, if Eval(r, v, x) != N then a else b)
    case Bin(op, a, b) =>
      var (x, y) := (Patched(r, fixed, v, a), Patched(r, fixed, v, b));
      if op.Implies? && !Decided(r, fixed, v, a) && Decided(r, fixed, v, b) && Eval(r, v, y) == N then One
      else Bin(op, x, y)
  }

  /** The formula is decided, and with the faulty steps taken it is false. */
  predicate Lost(r: Rules, fixed: set<Id>, v: View, e: Expr) {
    Decided(r, fixed, v, e) && Eval(r, v, Patched(r, fixed, v, e)) == N
  }

  /** eval_frozen answers exactly for decided formulas, with the value of the patched one. */
  ghost predicate Reported(r: Rules, v: View, f: Frozen, decided: bool, patched: Expr) {
    match f
    case Unknown => !decided
    case Const(t) => decided && patched != One && Eval(r, v, patched) == t
    case Truth => decided && patched == One
    case Fault => true
  }

  lemma CombineReported(r: Rules, v: View, op: Op, f: Frozen, g: Frozen, known: bool, other: bool, x: Expr, y: Expr)
    requires Reported(r, v, f, known, x) && Reported(r, v, g, other, y)
    ensures var open := op.Implies? && !known && other && Eval(r, v, y) == N;
            var decided := || (known && other)
                           || (op.And? && ((known && Eval(r, v, x) == N) || (other && Eval(r, v, y) == N)))
                           || (op.Or? && ((known && x != One && Eval(r, v, x) != N) ||
                                          (other && y != One && Eval(r, v, y) != N)))
                           || (op.Implies? && ((known && Eval(r, v, x) == N) || (other && Eval(r, v, y) == N)));
            Reported(r, v, Combine(op, f, g), decided, if open then One else Bin(op, x, y))
  {
    assert Eval(r, v, One) == Y;
    assert Eval(r, v, Bin(op, x, y)) == Apply(op, Eval(r, v, x), Eval(r, v, y));
  }

  lemma {:induction false} PatchedExact(r: Rules, fixed: set<Id>, v: View, e: Expr)
    ensures Reported(r, v, EvalFrozen(r, fixed, v, e), Decided(r, fixed, v, e), Patched(r, fixed, v, e))
    decreases Bound(e), e
  {
    match e
    case Lit(_) =>
    case One =>
    case Ref(s) =>
      if s !in fixed && r.At(s).derived && r.At(s).default.Some? {
        PatchedExact(r, fixed, v, r.At(s).default.value);
      }
    case Not(a) => PatchedExact(r, fixed, v, a);
    case Cond(g, a, b) =>
      PatchedExact(r, fixed, v, g);
      PatchedExact(r, fixed, v, a);
      PatchedExact(r, fixed, v, b);
    case Bin(op, a, b) =>
      PatchedExact(r, fixed, v, a);
      PatchedExact(r, fixed, v, b);
      CombineReported(r, v, op, EvalFrozen(r, fixed, v, a), EvalFrozen(r, fixed, v, b), Decided(r, fixed, v, a),
                      Decided(r, fixed, v, b), Patched(r, fixed, v, a), Patched(r, fixed, v, b));
  }

  /** Simplification makes n of a formula if and only if the formula is lost. */
  lemma LostExact(r: Rules, fixed: set<Id>, v: View, e: Expr)
    requires !EvalFrozen(r, fixed, v, e).Fault?
    ensures EvalFrozen(r, fixed, v, e) == Const(N) <==> Lost(r, fixed, v, e)
  {
    PatchedExact(r, fixed, v, e);
  }

  /** A formula that holds is lost only through a faulty step. */
  lemma CleanKept(r: Rules, fixed: set<Id>, v: View, e: Expr)
    requires Clean(r, fixed, v, e) && DerivedUnbound(r, v) && Eval(r, v, e) != N
    ensures !EvalFrozen(r, fixed, v, e).Fault? && !Lost(r, fixed, v, e)
  {
    assert Agrees(r, fixed, v, v);
    CleanResult(r, fixed, v, e, v);
    LostExact(r, fixed, v, e);
  }

  // ----- formulas that survive freezing

  /** Value: the exact value must be kept; Up: truth must not be lost; Down: truth must not be gained. */
  datatype Mode = Value | Up | Down

  predicate BoolValued(e: Expr) {
    match e
    case Lit(t) => t != M
    case Cond(_, a, b) => BoolValued(a) && BoolValued(b)
    case Bin(op, _, _) => op.Logical() || op.Relational()
    case _ => false
  }

  /** A syntactic condition: `implies` stands only where more truth does no harm, `not` only where truth matters. */
  predicate Tame(r: Rules, mode: Mode, e: Expr)
    decreases Bound(e), e
  {
    match e
    case Lit(_) => true
    case One => mode != Value
    case Ref(s) =>
      r.At(s).derived ==>
        r.At(s).default.Some? && Tame(r, mode, r.At(s).default.value) &&
        (mode.Value? && r.At(s).kind.BoolKind? ==> BoolValued(r.At(s).default.value))
    case Not(a) => (mode.Up? && Tame(r, Down, a)) || (mode.Down? && Tame(r, Up, a))
    case Cond(g, a, b) => Tame(r, Up, g) && Tame(r, Down, g) && Tame(r, mode, a) && Tame(r, mode, b)
    case Bin(op, a, b) =>
      if op.Implies? then mode.Up? && Tame(r, Down, a) && Tame(r, Up, b)
      else if op.Logical() then
        && (mode.Down? || (Tame(r, Up, a) && Tame(r, Up, b)))
        && (mode.Up? || (Tame(r, Down, a) && Tame(r, Down, b)))
      else Tame(r, Value, a) && Tame(r, Value, b)
  }

  ghost predicate Keeps(mode: Mode, f: Frozen, t: Trit) {
    f.Unknown? ||
    (f.Known() && match mode
     case Value => f == Const(t)
     case Up => t != N ==> f.Holds()
     case Down => f.Holds() ==> t != N)
  }

  lemma BoolValuedFrozen(r: Rules, fixed: set<Id>, v: View, e: Expr)
    requires BoolValued(e)
    ensures EvalFrozen(r, fixed, v, e) != Const(M)
  {
  }

  /** Combining keeps the mode, given what the operator asks of its operands. */
  lemma CombineKeeps(mode: Mode, op: Op, f: Frozen, g: Frozen, a: Trit, b: Trit)
    requires op.Implies? ==> mode.Up? && Keeps(Down, f, a) && Keeps(Up, g, b)
    requires op.Logical() && !op.Implies? && !mode.Down? ==> Keeps(Up, f, a) && Keeps(Up, g, b)
    requires op.Logical() && !op.Implies? && !mode.Up? ==> Keeps(Down, f, a) && Keeps(Down, g, b)
    requires !op.Logical() ==> Keeps(Value, f, a) && Keeps(Value, g, b)
    ensures Keeps(mode, Combine(op, f, g), Apply(op, a, b))
  {
  }

  /** In a tame formula freezing keeps what its mode asks for, at the current valuation. */
  lemma {:induction false} TameKeeps(r: Rules, fixed: set<Id>, v: View, mode: Mode, e: Expr)
    requires Tame(r, mode, e) && DerivedUnbound(r, v)
    ensures Keeps(mode, EvalFrozen(r, fixed, v, e), Eval(r, v, e))
    decreases Bound(e), 1, e
  {
    match e
    case Lit(_) =>
    case One =>
    case Ref(s) => TameRefKeeps(r, fixed, v, mode, s);
    case Not(a) => TameKeeps(r, fixed, v, if mode.Up? then Down else Up, a);
    case Cond(g, a, b) =>
      TameKeeps(r, fixed, v, Up, g);
      TameKeeps(r, fixed, v, Down, g);
      TameKeeps(r, fixed, v, mode, a);
      TameKeeps(r, fixed, v, mode, b);
    case Bin(op, a, b) =>
      if op.Implies? {
        TameKeeps(r, fixed, v, Down, a);
        TameKeeps(r, fixed, v, Up, b);
      } else if op.Logical() {
        if !mode.Down? {
          TameKeeps(r, fixed, v, Up, a);
          TameKeeps(r, fixed, v, Up, b);
        }
        if !mode.Up? {
          TameKeeps(r, fixed, v, Down, a);
          TameKeeps(r, fixed, v, Down, b);
        }
      } else {
        TameKeeps(r, fixed, v, Value, a);
        TameKeeps(r, fixed, v, Value, b);
      }
      CombineKeeps(mode, op, EvalFrozen(r, fixed, v, a), EvalFrozen(r, fixed, v, b), Eval(r, v, a), Eval(r, v, b));
  }

  lemma {:induction false} TameRefKeeps(r: Rules, fixed: set<Id>, v: View, mode: Mode, s: Id)
    requires Tame(r, mode, Ref(s)) && DerivedUnbound(r, v)
    ensures Keeps(mode, EvalFrozen(r, fixed, v, Ref(s)), EvalSymbol(r, v, s))
    decreases s + 1, 0
  {
    if s !in fixed && r.At(s).derived {
      TameKeeps(r, fixed, v, mode, r.At(s).default.value);
      if mode.Value? && r.At(s).kind.BoolKind? {
        BoolValuedFrozen(r, fixed, v, r.At(s).default.value);
      }
    }
  }
}
