/**
 * The fuel of the propagation functions bounds their call depth and nothing else: a call that returns, or raises
 * one of the source's own exceptions, does the same with any larger bound.
 */
module Fuel {
  import opened Options
  import opened Rulebase
  import opened Journal
  import opened Propagation
  import Sessions

  ghost predicate Settled<T>(less: Result<T>, more: Result<T>) { less != Raised(OutOfFuel) ==> more == less }

  lemma {:induction false} SetInternalMore(fuel: nat, r: Rules, st: State, s: Id, value: Trit, source: Id, sort: Sort)
    ensures Settled(SetInternal(fuel, r, st, s, value, source, sort),
                    SetInternal(fuel + 1, r, st, s, value, source, sort))
    decreases fuel, 0
  {
    hide SetUnfrozen, EvalSymbol, Visible;
    if fuel > 0 { SetUnfrozenMore(fuel - 1, r, st.(touched := st.touched + [s]), s, value, source, sort); }
  }

  lemma {:induction false} SetUnfrozenMore(fuel: nat, r: Rules, st: State, s: Id, value: Trit, source: Id, sort: Sort)
    ensures Settled(SetUnfrozen(fuel, r, st, s, value, source, sort),
                    SetUnfrozen(fuel + 1, r, st, s, value, source, sort))
    decreases fuel, 1
  {
    hide SideEffects, Bind, ChainIds;
    var bound := Bind(st.(chilled := st.chilled[s := source]), s, value, source, sort);
    if bound.Done? { SideEffectsMore(fuel, r, Conceal(bound.value, {s}), s, value, source, sort); }
  }

  lemma {:induction false} SideEffectsMore(fuel: nat, r: Rules, st: State, s: Id, value: Trit, source: Id, sort: Sort)
    ensures Settled(SideEffects(fuel, r, st, s, value, source, sort),
                    SideEffects(fuel + 1, r, st, s, value, source, sort))
    decreases fuel, 0
  {
    hide SetSiblings, RaiseTrits, ForceRelatives, Deduce;
    if fuel == 0 { return; }
    SetSiblingsMore(fuel - 1, r, st, r.At(s).choicegroup, source);
    var res := if value != N then SetSiblings(fuel - 1, r, st, r.At(s).choicegroup, source) else Done(st);
    if res.Raised? { return; }
    var st1 := res.value;
    RaiseTritsMore(fuel - 1, r, st1, r.dictionary, source);
    res := if r.tritTie == Some(s) && value == N then RaiseTrits(fuel - 1, r, st1, r.dictionary, source) else Done(st1);
    if res.Raised? { return; }
    var st2 := res.value;
    ForceRelativesMore(fuel - 1, r, st2, s, value, source, sort);
    res := if r.At(s).Logical() then ForceRelatives(fuel - 1, r, st2, s, value, source, sort) else Done(st2);
    if res.Raised? { return; }
    DeduceMore(fuel - 1, r, res.value, s, source);
  }

  lemma {:induction false} ForceRelativesMore(fuel: nat, r: Rules, st: State, s: Id, value: Trit, source: Id,
                                              sort: Sort)
    ensures Settled(ForceRelatives(fuel, r, st, s, value, source, sort),
                    ForceRelatives(fuel + 1, r, st, s, value, source, sort))
    decreases fuel, 0
  {
    hide ForceAllAncestors, ForceAllDependents;
    if fuel == 0 { return; }
    var st1 := st;
    if value != N && !sort.AfterLesser? {
      var above := MenuAncestors(r, s);
      if above.Raised? { return; }
      ForceAllAncestorsMore(fuel - 1, r, st, s, source, value, r.At(s).ancestors + above.value);
      var res := ForceAllAncestors(fuel - 1, r, st, s, source, value, r.At(s).ancestors + above.value);
      if res.Raised? { return; }
      st1 := res.value;
    }
    ForceAllDependentsMore(fuel - 1, r, st1, s, source, value, r.At(s).dependents);
  }

  lemma {:induction false} DeduceMore(fuel: nat, r: Rules, st: State, s: Id, source: Id)
    ensures Settled(Deduce(fuel, r, st, s, source), Deduce(fuel + 1, r, st, s, source))
    decreases fuel, 0
  {
    hide Constrain, ConstrainRounds;
    if fuel == 0 { return; }
    var st1 := st;
    if st.interactive && !st.suppressions && r.At(s).visibility.Some? {
      ConstrainMore(fuel - 1, r, st, r.At(s).visibility.value, source, Y);
      var res := Constrain(fuel - 1, r, st, r.At(s).visibility.value, source, Y);
      if res.Raised? { return; }
      st1 := res.value.0;
    }
    ConstrainRoundsMore(fuel - 1, r, st1, Watched(st1, s), source);
  }

  lemma {:induction false} SetSiblingsMore(fuel: nat, r: Rules, st: State, siblings: seq<Id>, source: Id)
    ensures Settled(SetSiblings(fuel, r, st, siblings, source), SetSiblings(fuel + 1, r, st, siblings, source))
    decreases fuel, |siblings|
  {
    hide SetInternal;
    if siblings == [] { return; }
    SetInternalMore(fuel, r, st, siblings[0], N, source, Plain);
    var res := SetInternal(fuel, r, st, siblings[0], N, source, Plain);
    if res.Done? { SetSiblingsMore(fuel, r, res.value, siblings[1..], source); }
  }

  lemma {:induction false} RaiseTritsMore(fuel: nat, r: Rules, st: State, entries: seq<Id>, source: Id)
    ensures Settled(RaiseTrits(fuel, r, st, entries, source), RaiseTrits(fuel + 1, r, st, entries, source))
    decreases fuel, |entries|
  {
    hide SetInternal, EvalSymbol, Visible;
    if entries == [] { return; }
    var s := entries[0];
    var st1 := st;
    if r.At(s).kind.TritKind? && !r.At(s).derived && EvalSymbol(r, ViewOf(st), s) == M {
      SetInternalMore(fuel, r, st, s, Y, source, Plain);
      var res := SetInternal(fuel, r, st, s, Y, source, Plain);
      if res.Raised? { return; }
      st1 := res.value;
    }
    RaiseTritsMore(fuel, r, st1, entries[1..], source);
  }

  lemma {:induction false} ForceAncestorsMore(fuel: nat, r: Rules, st: State, dependent: Id, source: Id, value: Trit,
                                              ancestor: Id)
    ensures Settled(ForceAncestors(fuel, r, st, dependent, source, value, ancestor),
                    ForceAncestors(fuel + 1, r, st, dependent, source, value, ancestor))
    decreases fuel, 0
  {
    hide SetInternal, ForceAllAncestors;
    if fuel == 0 { return; }
    var st1 := st;
    if r.At(dependent).Logical() && r.At(ancestor).Logical() && value != N {
      var v := AncestorValue(r, st, dependent, value, ancestor);
      SetInternalMore(fuel - 1, r, st, ancestor, v, source, AfterGreater);
      var res := SetInternal(fuel - 1, r, st, ancestor, v, source, AfterGreater);
      if res.Raised? { return; }
      st1 := res.value;
    }
    ForceAllAncestorsMore(fuel - 1, r, st1, dependent, source, value, r.At(ancestor).ancestors);
    var res := ForceAllAncestors(fuel - 1, r, st1, dependent, source, value, r.At(ancestor).ancestors);
    var above := MenuAncestors(r, ancestor);
    if res.Done? && above.Done? {
      ForceAllAncestorsMore(fuel - 1, r, res.value, dependent, source, value, above.value);
    }
  }

  lemma {:induction false} ForceAllAncestorsMore(fuel: nat, r: Rules, st: State, dependent: Id, source: Id, value: Trit,
                                                 ancestors: seq<Id>)
    ensures Settled(ForceAllAncestors(fuel, r, st, dependent, source, value, ancestors),
                    ForceAllAncestors(fuel + 1, r, st, dependent, source, value, ancestors))
    decreases fuel, |ancestors|
  {
    hide ForceAncestors;
    if ancestors == [] { return; }
    ForceAncestorsMore(fuel, r, st, dependent, source, value, ancestors[0]);
    var res := ForceAncestors(fuel, r, st, dependent, source, value, ancestors[0]);
    if res.Done? { ForceAllAncestorsMore(fuel, r, res.value, dependent, source, value, ancestors[1..]); }
  }

  lemma {:induction false} ForceDependentsMore(fuel: nat, r: Rules, st: State, guard: Id, source: Id, value: Trit,
                                               dependent: Id)
    ensures Settled(ForceDependents(fuel, r, st, guard, source, value, dependent),
                    ForceDependents(fuel + 1, r, st, guard, source, value, dependent))
    decreases fuel, 0
  {
    hide SetInternal, ForceAllDependents, EvalSymbol, Visible;
    if fuel == 0 { return; }
    var current := EvalSymbol(r, ViewOf(st), dependent);
    var st1 := st;
    if r.At(guard).Logical() && r.At(dependent).Logical() && value.Less(current) {
      var v := DependentValue(r, st, guard, value, dependent, current);
      SetInternalMore(fuel - 1, r, st, dependent, v, source, AfterLesser);
      var res := SetInternal(fuel - 1, r, st, dependent, v, source, AfterLesser);
      if res.Raised? { return; }
      st1 := res.value;
    }
    var below := if r.At(dependent).items != [] then r.At(dependent).items else r.At(dependent).dependents;
    ForceAllDependentsMore(fuel - 1, r, st1, guard, source, value, below);
  }

  lemma {:induction false} ForceAllDependentsMore(fuel: nat, r: Rules, st: State, guard: Id, source: Id, value: Trit,
                                                  dependents: seq<Id>)
    ensures Settled(ForceAllDependents(fuel, r, st, guard, source, value, dependents),
                    ForceAllDependents(fuel + 1, r, st, guard, source, value, dependents))
    decreases fuel, |dependents|
  {
    hide ForceDependents;
    if dependents == [] { return; }
    ForceDependentsMore(fuel, r, st, guard, source, value, dependents[0]);
    var res := ForceDependents(fuel, r, st, guard, source, value, dependents[0]);
    if res.Done? { ForceAllDependentsMore(fuel, r, res.value, guard, source, value, dependents[1..]); }
  }

  lemma {:induction false} ConstrainMore(fuel: nat, r: Rules, st: State, wff: Expr, source: Id, fixed: Trit)
    ensures Settled(Constrain(fuel, r, st, wff, source, fixed), Constrain(fuel + 1, r, st, wff, source, fixed))
    decreases fuel, 0
  {
    hide ConstrainSymbol, Relate, Eval, Visible;
    if fuel == 0 { return; }
    match wff
    case Ref(s) => ConstrainSymbolMore(fuel - 1, r, st, s, source, fixed);
    case Cond(g, a, b) => ConstrainMore(fuel - 1, r, st, if Eval(r, ViewOf(st), g) != N then a else b, source, fixed);
    case Bin(op, a, b) =>
      if op.Implies? && fixed == Y {
        ConstrainMore(fuel - 1, r, st, b, source, fixed);
      } else if (op.And? && fixed == Y) || (op.Or? && fixed == N) {
        ConstrainMore(fuel - 1, r, st, a, source, fixed);
        var res := Constrain(fuel - 1, r, st, a, source, fixed);
        if res.Done? { ConstrainMore(fuel - 1, r, res.value.0, b, source, fixed); }
      } else {
        RelateMore(fuel - 1, r, st, if fixed == N then Converse(op) else op, a, b, source);
      }
    case _ =>
  }

  lemma {:induction false} ConstrainSymbolMore(fuel: nat, r: Rules, st: State, s: Id, source: Id, fixed: Trit)
    ensures Settled(ConstrainSymbol(fuel, r, st, s, source, fixed), ConstrainSymbol(fuel + 1, r, st, s, source, fixed))
    decreases fuel, 0
  {
    hide Constrain, SetInternal, Bind, EvalSymbol, Visible;
    if fuel == 0 { return; }
    if r.At(s).derived {
      if r.At(s).default.Some? { ConstrainMore(fuel - 1, r, st, r.At(s).default.value, source, fixed); }
    } else {
      SetInternalMore(fuel - 1, r, st, s, fixed, source, Plain);
    }
  }

  lemma {:induction false} RelateMore(fuel: nat, r: Rules, st: State, op: Op, a: Expr, b: Expr, source: Id)
    ensures Settled(Relate(fuel, r, st, op, a, b, source), Relate(fuel + 1, r, st, op, a, b, source))
    decreases fuel, 0
  {
    hide Constrain, Eval, Visible;
    if fuel == 0 { return; }
    ConstrainMore(fuel - 1, r, st, a, source, Eval(r, ViewOf(st), b));
    ConstrainMore(fuel - 1, r, st, b, source, Eval(r, ViewOf(st), a));
  }

  lemma {:induction false} ConstrainAllMore(fuel: nat, r: Rules, st: State, wffs: seq<Expr>, source: Id)
    ensures Settled(ConstrainAll(fuel, r, st, wffs, source), ConstrainAll(fuel + 1, r, st, wffs, source))
    decreases fuel, |wffs|
  {
    hide Constrain;
    if wffs == [] { return; }
    ConstrainMore(fuel, r, st, wffs[0], source, Y);
    var res := Constrain(fuel, r, st, wffs[0], source, Y);
    if res.Done? { ConstrainAllMore(fuel, r, res.value.0, wffs[1..], source); }
  }

  lemma {:induction false} ConstrainRoundsMore(fuel: nat, r: Rules, st: State, wffs: seq<Expr>, source: Id)
    ensures Settled(ConstrainRounds(fuel, r, st, wffs, source), ConstrainRounds(fuel + 1, r, st, wffs, source))
    decreases fuel, 0
  {
    hide ConstrainAll;
    if fuel == 0 { return; }
    ConstrainAllMore(fuel - 1, r, st, wffs, source);
    var res := ConstrainAll(fuel - 1, r, st, wffs, source);
    if res.Done? { ConstrainRoundsMore(fuel - 1, r, res.value.0, wffs, source); }
  }

  /** set_symbol's outcome does not depend on the bound once the bound lets it finish. */
  lemma {:induction false} SetSymbolSettled(fuel: nat, more: nat, r: Rules, st: State, s: Id, value: Trit, freeze: bool)
    requires fuel <= more
    ensures Settled(Sessions.SetSymbol(fuel, r, st, s, value, freeze),
                    Sessions.SetSymbol(more, r, st, s, value, freeze))
    decreases more - fuel
  {
    hide SetInternal, Sessions.Decide;
    if fuel >= more {
    } else {
      SetInternalMore(fuel, r, st.(changesToFrozen := []), s, value, s, Plain);
      SetSymbolSettled(fuel + 1, more, r, st, s, value, freeze);
    }
  }
}
