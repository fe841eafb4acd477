/** The exceptions of __inner_constrain (contrib/cml2/cmlsystem.py): calls that meet them, and rulebases that do not. */
module Exceptions {
  import opened Options
  import opened Rulebase
  import opened PartialEval
  import opened Journal
  import opened Propagation
  import opened FrozenSymbols
  import opened Transactions
  import opened Sessions
  import opened Runs
  import opened Freezing
  import opened FrozenRuns

  lemma {:induction false} SimplifyNames(r: Rules, fixed: set<Id>, v: View, formulas: seq<Expr>)
    ensures SimplifyAll(r, fixed, v, formulas) != Raised(NameError)
  {
    if formulas == [] {
    } else {
      SimplifyNames(r, fixed, v, formulas[1..]);
    }
  }

  lemma DecideRaises(r: Rules, st: State, undo: set<Id>, freeze: bool)
    ensures Decide(r, st, undo, freeze) != Raised(NameError)
    ensures !freeze ==> Decide(r, st, undo, freeze) != Raised(NotATrit)
  {
    hide SimplifyAll, Failures, BindCommit, Rollback, Visible;
    var checked := SaneCheck(r, Conceal(st, undo));
    if freeze {
      var iced := checked.(iced := FreezeAll(r, checked.iced, checked.touched), touched := []);
      SimplifyNames(r, FrozenSet(r, iced) + iced.chilled.Keys, ViewOf(iced), iced.reduced);
    }
  }

  /**
   * If the formulas that symbols watch, and the visibilities if they are looked at, are mild, no call uses the
   * undefined name, and only a freezing one can stop for want of a trit.
   */
  lemma MildCall(fuel: nat, r: Rules, st: State, s: Id, value: Trit, freeze: bool)
    requires Quiescent(st) && AllMild(r, st)
    ensures SetSymbol(fuel, r, st, s, value, freeze) != Raised(NameError)
    ensures !freeze ==> SetSymbol(fuel, r, st, s, value, freeze) != Raised(NotATrit)
  {
    hide Quiescent, AllMild, Proposal, Decide, Within;
    ProposalWithin(fuel, r, st, s, value);
    var proposal := Proposal(fuel, r, st, s, value);
    if proposal.Done? { DecideRaises(r, proposal.value.0, proposal.value.1, freeze); }
  }

  // ----- calls that raise them

  /** Bool 0 and bool 1, y by default, in a plain menu 2; `formula` is the only requirement. */
  function Required(formula: Expr): Rules
    requires Bound(formula) <= 2
  {
    RawRules([Symbol(BoolKind, false, None, Some(2), [], [], [], [], None),
              Symbol(BoolKind, false, Some(Lit(Y)), Some(2), [], [], [], [], None),
              Symbol(MenuKind, false, None, None, [], [], [], [0, 1], None)],
             [0, 1, 2], None, [formula])
  }

  /** Setting a symbol in a plain menu raises what the rounds over its formulas raise. */
  lemma RoundsRaise(fuel: nat, r: Rules, st: State, s: Id, value: Trit, e: Error)
    requires fuel >= 6 && s in st.cache && !IsFrozen(r, st, s) && EvalSymbol(r, ViewOf(st), s) != value
    requires st.newb == map[] && st.chilled == map[] && st.suppressions && Lone(r, s)
    requires var bound := Conceal(BoundTo(st.(changesToFrozen := []), s, value, s, Plain), {s});
             ConstrainRounds(fuel - 3, r, bound, Watched(bound, s), s) == Raised(e)
    ensures SetSymbol(fuel, r, st, s, value, false) == Raised(e)
  {
    hide EvalSymbol, Visible, ChainIds, Insert, ConstrainRounds, Watched, SetSiblings, ForceAllAncestors,
         ForceAllDependents, RaiseTrits, Constrain;
    var calm := st.(changesToFrozen := []);
    var touched := calm.(touched := calm.touched + [s]);
    assert ViewOf(touched) == ViewOf(st);
    var made := BoundTo(calm, s, value, s, Plain);
    assert Bind(touched.(chilled := touched.chilled[s := s]), s, value, s, Plain) == Done(made);
    var bound := Conceal(made, {s});
    NothingForced(fuel - 2, r, bound, s, value, s);
    NothingForced(fuel - 3, r, bound, s, value, s);
    ghost var none: seq<Id> := [];
    assert none + none == none;
    assert Deduce(fuel - 2, r, bound, s, s) == Raised(e);
    assert r.At(s).Logical() ==> ForceRelatives(fuel - 2, r, bound, s, value, s, Plain) == Done(bound);
    assert SideEffects(fuel - 1, r, bound, s, value, s, Plain) == Raised(e);
    assert SetInternal(fuel, r, calm, s, value, s, Plain) == Raised(e);
  }

  /** A round over one formula raises what forcing the formula raises. */
  lemma RoundRaises(fuel: nat, r: Rules, st: State, e: Expr, source: Id, error: Error)
    requires fuel > 0 && Constrain(fuel - 1, r, st, e, source, Y) == Raised(error)
    ensures ConstrainRounds(fuel, r, st, [e], source) == Raised(error)
  {
    hide Constrain;
    assert ConstrainAll(fuel - 1, r, st, [e], source) == Raised(error);
  }

  lemma WatchesOnly(r: Rules, e: Expr, s: Id)
    requires s < |r.symbols| && s in Flatten(r, e)
    ensures Access(r, [e])[s] == [e]
  {
    assert [e][..0] == [] && Watching(r, [e][..0], s) == [];
    assert [] + [e] == [e];
  }

  /** Forcing the one mutable operand of a relation between symbols or constants that the source cannot force. */
  lemma RelationRaises(fuel: nat, r: Rules, st: State, op: Op, a: Expr, b: Expr, source: Id)
    requires fuel >= 2 && Comparable(r, a) && Comparable(r, b) && Mutable(r, st, a) && !Mutable(r, st, b)
    ensures op.Below? && Apply(op, Eval(r, ViewOf(st), a), Eval(r, ViewOf(st), b)) == N ==>
              Constrain(fuel, r, st, Bin(op, a, b), source, Y) == Raised(NameError)
    ensures op.Unequal? && IsBool(r, a) && IsBool(r, b) ==>
              Constrain(fuel, r, st, Bin(op, a, b), source, Y) == Raised(NotATrit)
  {
    hide Eval, Visible;
  }

  /** With the requirement that 0 is below y, setting 0 to y uses the undefined name. */
  lemma NameErrorRaised()
    ensures var r := Required(Bin(Below, Ref(0), Lit(Y)));
            Consistent(r, Clear(r)) && SetSymbol(9, r, Clear(r), 0, Y, false) == Raised(NameError)
  {
    hide SetSymbol, Access, EvalSymbol, Shown, Constrain, ConstrainRounds, ChainIds, Insert, Holds, Inv, Visible, Eval,
         Flatten, Stacks, Family;
    var e := Bin(Below, Ref(0), Lit(Y));
    var r, st := Required(e), Clear(Required(e));
    RequiredValues(e);
    EmptyJournal(st);
    InClear(r, 0);
    WatchesOnly(r, e, 0);
    var bound := Conceal(BoundTo(st.(changesToFrozen := []), 0, Y, 0, Plain), {0});
    FirstBinding(st, 0, Y);
    assert ViewOf(bound) == map[0 := Y];
    RelationRaises(5, r, bound, Below, Ref(0), Lit(Y), 0);
    RoundRaises(6, r, bound, e, 0, NameError);
    RoundsRaise(9, r, st, 0, Y, NameError);
  }

  lemma RequiredValues(e: Expr)
    requires Bound(e) <= 2
    ensures var r := Required(e);
            && Lone(r, 0) && Lone(r, 1) && r.constraints == [e]
            && EvalSymbol(r, map[], 0) == N && EvalSymbol(r, map[], 1) == Y && EvalSymbol(r, map[0 := Y], 0) == Y
            && (e == Bin(Below, Ref(0), Lit(Y)) || e == Bin(Unequal, Ref(0), Ref(1)) ==>
                  Holds(r, map[], [e]) && 0 in Flatten(r, e))
            && (e == Bin(Below, Ref(0), Lit(Y)) ==> Apply(Below, Eval(r, map[0 := Y], Ref(0)), Y) == N)
            && Eval(r, map[0 := Y], Lit(Y)) == Y
  {
    var r := Required(e);
    assert Eval(r, map[], Lit(Y)) == Y;
    assert EvalSymbol(r, map[], 0) == N && EvalSymbol(r, map[], 1) == Y && EvalSymbol(r, map[0 := Y], 0) == Y;
    assert Eval(r, map[], Ref(0)) == N && Eval(r, map[], Ref(1)) == Y;
  }

  /** With the requirement that 0 and 1 differ and 1 frozen at y, setting 0 to y would bind a truth value. */
  lemma NotATritRaised()
    ensures var r := Required(Bin(Unequal, Ref(0), Ref(1)));
            && Consistent(r, Clear(r))
            && var res := After(9, r, Clear(r), Set(Call(1, Y, true)));
               res.Done? && SetSymbol(9, r, res.value, 0, Y, false) == Raised(NotATrit)
  {
    hide SetSymbol, Access, EvalSymbol, Shown, Constrain, ConstrainRounds, ChainIds, Insert, Holds, Inv, SimplifyAll,
         FrozenSet, Simplify;
    var e := Bin(Unequal, Ref(0), Ref(1));
    var r, st := Required(e), Clear(Required(e));
    RequiredValues(e);
    EmptyJournal(st);
    assert st.iced + {1} == {1};
    NoMessages(r, st.(iced := st.iced + {1}));
    StaysOpen(r);
    SimplifyOnly(r, {1}, map[], [e], e);
    IdleFreeze(9, r, st, 1, [e]);
    var st1 := st.(iced := {1}, access := Access(r, [e]));
    EmptyJournal(st1);
    InClear(r, 0);
    WatchesOnly(r, e, 0);
    var bound := Conceal(BoundTo(st1.(changesToFrozen := []), 0, Y, 0, Plain), {0});
    RelationRaises(5, r, bound, Unequal, Ref(0), Ref(1), 0);
    RoundRaises(6, r, bound, e, 0, NotATrit);
    RoundsRaise(9, r, st1, 0, Y, NotATrit);
  }

  lemma StaysOpen(r: Rules)
    requires r == Required(Bin(Unequal, Ref(0), Ref(1)))
    ensures Simplify(r, {1}, map[], Bin(Unequal, Ref(0), Ref(1))) == Done(Bin(Unequal, Ref(0), Ref(1)))
  {
    assert EvalFrozen(r, {1}, map[], Ref(0)) == Unknown;
    assert EvalFrozen(r, {1}, map[], Ref(1)).Const?;
  }
}
