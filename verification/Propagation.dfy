/**
 * Propagation of a setting's side effects (contrib/cml2/cmlsystem.py, __set_symbol_internal and below), as
 * functions on the journal's state. Contradictory rules can make it diverge: `fuel` bounds the call depth.
 */
module Propagation {
  import opened Options
  import opened Rulebase
  import opened Journal

  predicate Mutable(r: Rules, st: State, e: Expr) { e.Ref? && !IsFrozen(r, st, e.symbol) }

  predicate Comparable(r: Rules, e: Expr) { e.Lit? || (e.Ref? && r.At(e.symbol).Logical()) }

  predicate IsBool(r: Rules, e: Expr) { e.Ref? && r.At(e.symbol).kind.BoolKind? }

  /** The relation to assert when `op` has to come out false. */
  function Converse(op: Op): Op {
    match op
    case Equal => Unequal
    case Unequal => Equal
    case Above => AtMost
    case AtMost => Above
    case Below => AtLeast
    case AtLeast => Below
    case _ => op
  }

  /** The ancestors of the symbol's menu; a symbol outside every menu has no such attribute. */
  function MenuAncestors(r: Rules, s: Id): Result<seq<Id>> {
    match r.At(s).menu
    case Some(m) => Done(r.At(m).ancestors)
    case None => Raised(AttributeError)
  }

  /** The value to which setting `dependent` to `value` forces an ancestor. */
  function AncestorValue(r: Rules, st: State, dependent: Id, value: Trit, ancestor: Id): Trit {
    if r.At(dependent).kind == r.At(ancestor).kind then value
    else if !st.tritsEnabled then Y
    else if r.At(ancestor).kind.BoolKind? then Y
    else M
  }

  /** The value to which setting `guard` to `value` forces a dependent whose value is `current`. */
  function DependentValue(r: Rules, st: State, guard: Id, value: Trit, dependent: Id, current: Trit): Trit {
    if r.At(guard).kind == r.At(dependent).kind then value
    else if !st.tritsEnabled then N
    else if r.At(dependent).kind.TritKind? then value
    else if value == N then value
    else current
  }

  function SetInternal(fuel: nat, r: Rules, st: State, s: Id, value: Trit, source: Id, sort: Sort): Result<State>
    decreases fuel, 0
  {
    if fuel == 0 then Raised(OutOfFuel) else
    var st := st.(touched := st.touched + [s]);
    var before := EvalSymbol(r, ViewOf(st), s);
    if before == value && (s == source || IsFrozen(r, st, s)) then Done(st)
    else if before != value && IsFrozen(r, st, s) then
      Done(if before.Less(value) then st.(changesToFrozen := st.changesToFrozen + [FrozenChange(s)]) else st)
    else SetUnfrozen(fuel - 1, r, st, s, value, source, sort)
  }

  /** The old bindings of s stay hidden while its side effects are worked out. */
  function SetUnfrozen(fuel: nat, r: Rules, st: State, s: Id, value: Trit, source: Id, sort: Sort): Result<State>
    decreases fuel, 1
  {
    if s in st.chilled && st.chilled[s] != source then Raised(Unsatisfiable) else
    var st :- Bind(st.(chilled := st.chilled[s := source]), s, value, source, sort);
    var st :- SideEffects(fuel, r, Conceal(st, {s}), s, value, source, sort);
    Done(Reveal(st, {s}))
  }

  function SideEffects(fuel: nat, r: Rules, st: State, s: Id, value: Trit, source: Id, sort: Sort): Result<State>
    decreases fuel, 0
  {
    if fuel == 0 then Raised(OutOfFuel) else
    var st :- if value != N then SetSiblings(fuel - 1, r, st, r.At(s).choicegroup, source) else Done(st);
    var st :- if r.tritTie == Some(s) && value == N then RaiseTrits(fuel - 1, r, st, r.dictionary, source)
              else Done(st);
    var st :- if r.At(s).Logical() then ForceRelatives(fuel - 1, r, st, s, value, source, sort) else Done(st);
    Deduce(fuel - 1, r, st, s, source)
  }

  /** Raises what the symbol depends on, lowers what depends on it; `sort` keeps the two from chasing each other. */
  function ForceRelatives(fuel: nat, r: Rules, st: State, s: Id, value: Trit, source: Id, sort: Sort): Result<State>
    decreases fuel, 0
  {
    if fuel == 0 then Raised(OutOfFuel) else
    var st :- if value != N && !sort.AfterLesser? then
                var above :- MenuAncestors(r, s);
                ForceAllAncestors(fuel - 1, r, st, s, source, value, r.At(s).ancestors + above)
              else Done(st);
    if value != Y && !sort.AfterGreater? then
      ForceAllDependents(fuel - 1, r, st, s, source, value, r.At(s).dependents)
    else Done(st)
  }

  function Watched(st: State, s: Id): seq<Expr> { if s in st.access then st.access[s] else [] }

  /** Settings deduced from the symbol's visibility and from the formulas it watches. */
  function Deduce(fuel: nat, r: Rules, st: State, s: Id, source: Id): Result<State>
    decreases fuel, 0
  {
    if fuel == 0 then Raised(OutOfFuel) else
    var (st, _) :- if st.interactive && !st.suppressions && r.At(s).visibility.Some? then
                     Constrain(fuel - 1, r, st, r.At(s).visibility.value, source, Y)
                   else Done((st, 0));
    ConstrainRounds(fuel - 1, r, st, Watched(st, s), source)
  }

  function SetSiblings(fuel: nat, r: Rules, st: State, siblings: seq<Id>, source: Id): Result<State>
    decreases fuel, |siblings|
  {
    if siblings == [] then Done(st) else
    var st :- SetInternal(fuel, r, st, siblings[0], N, source, Plain);
    SetSiblings(fuel, r, st, siblings[1..], source)
  }

  /** When the trit tie goes to n, every trit at m is forced to y. */
  function RaiseTrits(fuel: nat, r: Rules, st: State, entries: seq<Id>, source: Id): Result<State>
    decreases fuel, |entries|
  {
    if entries == [] then Done(st) else
    var s := entries[0];
    var st :- if r.At(s).kind.TritKind? && !r.At(s).derived && EvalSymbol(r, ViewOf(st), s) == M then
                SetInternal(fuel, r, st, s, Y, source, Plain)
              else Done(st);
    RaiseTrits(fuel, r, st, entries[1..], source)
  }

  function ForceAncestors(fuel: nat, r: Rules, st: State, dependent: Id, source: Id, value: Trit, ancestor: Id)
    : Result<State>
    decreases fuel, 0
  {
    if fuel == 0 then Raised(OutOfFuel) else
    var st :- if r.At(dependent).Logical() && r.At(ancestor).Logical() && value != N then
                SetInternal(fuel - 1, r, st, ancestor, AncestorValue(r, st, dependent, value, ancestor), source,
                            AfterGreater)
              else Done(st);
    var st :- ForceAllAncestors(fuel - 1, r, st, dependent, source, value, r.At(ancestor).ancestors);
    var above :- MenuAncestors(r, ancestor);
    ForceAllAncestors(fuel - 1, r, st, dependent, source, value, above)
  }

  function ForceAllAncestors(fuel: nat, r: Rules, st: State, dependent: Id, source: Id, value: Trit, ancestors: seq<Id>)
    : Result<State>
    decreases fuel, |ancestors|
  {
    if ancestors == [] then Done(st) else
    var st :- ForceAncestors(fuel, r, st, dependent, source, value, ancestors[0]);
    ForceAllAncestors(fuel, r, st, dependent, source, value, ancestors[1..])
  }

  function ForceDependents(fuel: nat, r: Rules, st: State, guard: Id, source: Id, value: Trit, dependent: Id)
    : Result<State>
    decreases fuel, 0
  {
    if fuel == 0 then Raised(OutOfFuel) else
    var current := EvalSymbol(r, ViewOf(st), dependent);
    var st :- if r.At(guard).Logical() && r.At(dependent).Logical() && value.Less(current) then
                SetInternal(fuel - 1, r, st, dependent, DependentValue(r, st, guard, value, dependent, current), source,
                            AfterLesser)
              else Done(st);
    ForceAllDependents(fuel - 1, r, st, guard, source, value,
                       if r.At(dependent).items != [] then r.At(dependent).items else r.At(dependent).dependents)
  }

  function ForceAllDependents(fuel: nat, r: Rules, st: State, guard: Id, source: Id, value: Trit, dependents: seq<Id>)
    : Result<State>
    decreases fuel, |dependents|
  {
    if dependents == [] then Done(st) else
    var st :- ForceDependents(fuel, r, st, guard, source, value, dependents[0]);
    ForceAllDependents(fuel, r, st, guard, source, value, dependents[1..])
  }

  /** Makes `wff` evaluate to `fixed` where that can be read off; counts the symbols it had to set. */
  function Constrain(fuel: nat, r: Rules, st: State, wff: Expr, source: Id, fixed: Trit): Result<(State, nat)>
    decreases fuel, 0
  {
    if fuel == 0 then Raised(OutOfFuel) else
    match wff
    case Ref(s) => ConstrainSymbol(fuel - 1, r, st, s, source, fixed)
    case Cond(g, a, b) =>
      Constrain(fuel - 1, r, st, if Eval(r, ViewOf(st), g) != N then a else b, source, fixed)
    case Bin(op, a, b) =>
      if op.Implies? && fixed == Y then
        if Eval(r, ViewOf(st), a) != N then Constrain(fuel - 1, r, st, b, source, fixed) else Done((st, 0))
      else if (op.And? && fixed == Y) || (op.Or? && fixed == N) then
        var (st, n) :- Constrain(fuel - 1, r, st, a, source, fixed);
        var (st, k) :- Constrain(fuel - 1, r, st, b, source, fixed);
        Done((st, n + k))
      else if op.Relational() && Comparable(r, a) && Comparable(r, b) then
        Relate(fuel - 1, r, st, if fixed == N then Converse(op) else op, a, b, source)
      else Done((st, 0))
    case Not(_) => Raised(IndexError)
    case Lit(_) => Raised(AttributeError)
    case One => Raised(TypeError)
  }

  /** A derived symbol passes the demand on to its derivation; an unchanged value is recorded again. */
  function ConstrainSymbol(fuel: nat, r: Rules, st: State, s: Id, source: Id, fixed: Trit): Result<(State, nat)>
    decreases fuel, 0
  {
    if fuel == 0 then Raised(OutOfFuel) else
    if r.At(s).derived then
      if r.At(s).default.None? then Raised(TypeError)
      else Constrain(fuel - 1, r, st, r.At(s).default.value, source, fixed)
    else if EvalSymbol(r, ViewOf(st), s) == fixed then
      var st :- Bind(st, s, fixed, source, Plain);
      Done((st, 0))
    else
      var st :- SetInternal(fuel - 1, r, st, s, fixed, source, Plain);
      Done((st, 1))
  }

  /**
   * Forces the one mutable operand of a comparison. For `!=` the source passes a Python truth value on, for a
   * failing `<` or `>` it calls a name its module does not have.
   */
  function Relate(fuel: nat, r: Rules, st: State, op: Op, a: Expr, b: Expr, source: Id): Result<(State, nat)>
    decreases fuel, 0
  {
    if fuel == 0 then Raised(OutOfFuel) else
    if Mutable(r, st, a) == Mutable(r, st, b) then Done((st, 0)) else
    var x, y := Eval(r, ViewOf(st), a), Eval(r, ViewOf(st), b);
    if op.Unequal? then
      if IsBool(r, a) && IsBool(r, b) then Raised(NotATrit) else Done((st, 0))
    else if !op.Equal? && Apply(op, x, y) == Y then Done((st, 0))
    else if op.Below? || op.Above? then Raised(NameError)
    else if Mutable(r, st, a) then Constrain(fuel - 1, r, st, a, source, y)
    else Constrain(fuel - 1, r, st, b, source, x)
  }

  function ConstrainAll(fuel: nat, r: Rules, st: State, wffs: seq<Expr>, source: Id): Result<(State, nat)>
    decreases fuel, |wffs|
  {
    if wffs == [] then Done((st, 0)) else
    var (st, n) :- Constrain(fuel, r, st, wffs[0], source, Y);
    var (st, k) :- ConstrainAll(fuel, r, st, wffs[1..], source);
    Done((st, n + k))
  }

  /** Goes through the formulas until a round sets nothing. */
  function ConstrainRounds(fuel: nat, r: Rules, st: State, wffs: seq<Expr>, source: Id): Result<State>
    decreases fuel, 0
  {
    if fuel == 0 then Raised(OutOfFuel) else
    var (st, n) :- ConstrainAll(fuel - 1, r, st, wffs, source);
    if n == 0 then Done(st) else ConstrainRounds(fuel - 1, r, st, wffs, source)
  }

  // ----- formulas whose forcing raises neither NameError nor NotATrit

  /** The relation is none of those for which the source fails: `<`, `>`, and `!=` between bools. */
  predicate MildRelation(r: Rules, op: Op, a: Expr, b: Expr) {
    !op.Below? && !op.Above? && !(op.Unequal? && IsBool(r, a) && IsBool(r, b))
  }

  /** Forcing e to n (if `negated`) or to another value meets no such relation. */
  predicate Mild(r: Rules, negated: bool, e: Expr)
    decreases Bound(e), e
  {
    match e
    case Ref(s) => r.At(s).derived && r.At(s).default.Some? ==> Mild(r, negated, r.At(s).default.value)
    case Cond(_, a, b) => Mild(r, negated, a) && Mild(r, negated, b)
    case Bin(op, a, b) =>
      if op.Implies? then !negated ==> Mild(r, false, b)
      else if op.And? then !negated ==> Mild(r, false, a) && Mild(r, false, b)
      else if op.Or? then negated ==> Mild(r, true, a) && Mild(r, true, b)
      else if op.Relational() && Comparable(r, a) && Comparable(r, b) then
        && MildRelation(r, if negated then Converse(op) else op, a, b)
        && Mild(r, true, a) && Mild(r, false, a) && Mild(r, true, b) && Mild(r, false, b)
      else true
    case _ => true
  }

  /** All that propagation looks at is mild. */
  ghost predicate AllMild(r: Rules, st: State) {
    && (forall s, e | s in st.access && e in st.access[s] :: Mild(r, false, e))
    && (st.interactive && !st.suppressions ==>
          forall s | r.At(s).visibility.Some? :: Mild(r, false, r.At(s).visibility.value))
  }

  /** An exception that forcing a mild formula does not raise. */
  predicate Slip(e: Error) { e.NameError? || e.NotATrit? }
}
