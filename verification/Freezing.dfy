/**
 * Freezing (contrib/cml2/cmlsystem.py, __commit with freeze): exactly when the formulas go on holding, and exactly when
 * they go on standing for the requirements of the rulebase.
 */
module Freezing {
  import opened Options
  import opened Rulebase
  import opened PartialEval
  import opened Journal
  import opened Propagation
  import opened FrozenSymbols
  import opened Transactions
  import opened Sessions
  import opened Runs

  // ----- the formulas

  lemma SimplifyExact(r: Rules, fixed: set<Id>, v: View, e: Expr)
    requires Eval(r, v, e) != N && Simplify(r, fixed, v, e).Done?
    ensures Eval(r, v, Simplify(r, fixed, v, e).value) != N <==> !Lost(r, fixed, v, e)
  {
    hide Lost;
    LostExact(r, fixed, v, e);
  }

  lemma HoldsCons(r: Rules, v: View, e: Expr, rest: seq<Expr>)
    ensures Holds(r, v, [e] + rest) <==> Eval(r, v, e) != N && Holds(r, v, rest)
  {
    hide Eval;
    assert e in [e] + rest;
  }

  /** Simplifying a satisfied list of formulas keeps it satisfied exactly when none of them is lost. */
  lemma {:induction false} FreezingExact(r: Rules, fixed: set<Id>, v: View, formulas: seq<Expr>)
    requires Holds(r, v, formulas) && SimplifyAll(r, fixed, v, formulas).Done?
    ensures Holds(r, v, SimplifyAll(r, fixed, v, formulas).value) <==>
            forall e | e in formulas :: !Lost(r, fixed, v, e)
  {
    hide Eval, EvalFrozen, Simplify, Holds, Lost;
    if formulas == [] {
      NoFailures(r, v);
    } else {
      var e, rest := formulas[0], formulas[1..];
      assert formulas == [e] + rest;
      HoldsCons(r, v, e, rest);
      SimplifyExact(r, fixed, v, e);
      FreezingExact(r, fixed, v, rest);
      HoldsCons(r, v, Simplify(r, fixed, v, e).value, SimplifyAll(r, fixed, v, rest).value);
    }
  }

  // ----- one call

  /** What the simplification at the end of an accepted freezing call takes as fixed. */
  function FixedAt(r: Rules, prop: State): set<Id> {
    FrozenSet(r, prop.(iced := FreezeAll(r, prop.iced, prop.touched)))
  }

  /** The call is going to be accepted: nothing frozen is to be raised, and the formulas hold. */
  ghost predicate Acceptable(r: Rules, st: State, prop: State, undo: set<Id>) {
    prop.changesToFrozen == [] && Holds(r, ViewOf(Conceal(prop, undo)), st.reduced)
  }

  /** The call freezes, and one of the formulas has a faulty step that makes it false. */
  ghost predicate Loses(fuel: nat, r: Rules, st: State, call: Call) {
    var proposal := Proposal(fuel, r, st, call.symbol, call.value);
    && call.freeze && proposal.Done?
    && var (prop, undo) := proposal.value;
       && Acceptable(r, st, prop, undo)
       && exists e :: e in st.reduced && Lost(r, FixedAt(r, prop), ViewOf(Conceal(prop, undo)), e)
  }

  lemma SameFrozenSet(r: Rules, a: State, b: State)
    requires a.iced == b.iced
    ensures FrozenSet(r, a) == FrozenSet(r, b)
  {
  }

  lemma FreezingReduces(r: Rules, prop: State, undo: set<Id>)
    requires prop.chilled == map[]
    ensures var res := Commit(r, SaneCheck(r, Conceal(prop, undo)), true);
            var reduced := SimplifyAll(r, FixedAt(r, prop), ViewOf(Conceal(prop, undo)), prop.reduced);
            res.Done? ==> reduced.Done? && res.value.reduced == reduced.value
  {
    hide SimplifyAll, BindCommit, CommitSet, FreezeAll, Access, Failures, Visible;
    var checked := SaneCheck(r, Conceal(prop, undo));
    var iced := checked.(iced := FreezeAll(r, checked.iced, checked.touched), touched := []);
    SameFrozenSet(r, iced, prop.(iced := FreezeAll(r, prop.iced, prop.touched)));
    assert FrozenSet(r, iced) + iced.chilled.Keys == FixedAt(r, prop);
    assert ViewOf(iced) == ViewOf(Conceal(prop, undo));
    if FreezeTouched(r, checked).Done? { FreezingFormulas(r, checked); }
  }

  /** A call that returns is accepted exactly if it was acceptable, and then shows what was checked. */
  lemma AcceptedExact(fuel: nat, r: Rules, st: State, call: Call)
    requires Quiescent(st) && MenuMatches(r, call.symbol)
    requires SetSymbol(fuel, r, st, call.symbol, call.value, call.freeze).Done?
    ensures Proposal(fuel, r, st, call.symbol, call.value).Done?
    ensures var (st', accepted) := SetSymbol(fuel, r, st, call.symbol, call.value, call.freeze).value;
            var (prop, undo) := Proposal(fuel, r, st, call.symbol, call.value).value;
            && Quiescent(st') && prop.chilled == map[] && prop.reduced == st.reduced && prop.iced == st.iced
            && (accepted <==> Acceptable(r, st, prop, undo))
            && (accepted ==>
                  && ViewOf(st') == ViewOf(Conceal(prop, undo))
                  && Commit(r, SaneCheck(r, Conceal(prop, undo)), call.freeze) == Done(st'))
  {
    hide Inv, Within, Proposal, Holds, BindCommit, Commit, Failures, Visible;
    CallQuiescent(fuel, r, st, call);
    DecisionIsAboutTheCommit(fuel, r, st, call.symbol, call.value, call.freeze);
    ProposalWithin(fuel, r, st, call.symbol, call.value);
    var (prop, undo) := Proposal(fuel, r, st, call.symbol, call.value).value;
    WithinFacts(r, st, prop, call.symbol);
    ConcealIsCommit(prop, undo);
    DecideCommits(r, prop, undo, call.freeze);
    var (st', accepted) := SetSymbol(fuel, r, st, call.symbol, call.value, call.freeze).value;
    if accepted { assert ViewOf(st') == ViewOf(BindCommit(prop, undo)); }
  }

  lemma DecideCommits(r: Rules, prop: State, undo: set<Id>, freeze: bool)
    ensures var res := Decide(r, prop, undo, freeze);
            res.Done? && res.value.1 ==> Commit(r, SaneCheck(r, Conceal(prop, undo)), freeze) == Done(res.value.0)
  {
    hide Commit;
  }

  /** An accepted freezing call keeps the formulas satisfied exactly when it loses none. */
  lemma FreezingCallExact(fuel: nat, r: Rules, st: State, call: Call)
    requires Consistent(r, st) && MenuMatches(r, call.symbol) && call.freeze
    ensures var res := SetSymbol(fuel, r, st, call.symbol, call.value, call.freeze);
            res.Done? && res.value.1 ==>
              (Holds(r, ViewOf(res.value.0), res.value.0.reduced) <==> !Loses(fuel, r, st, call))
  {
    hide Inv, Proposal, Holds, SimplifyAll, FixedAt, Lost, Commit, Failures, Visible, Decide, SetSymbol, Quiescent;
    var res := SetSymbol(fuel, r, st, call.symbol, call.value, call.freeze);
    if res.Done? && res.value.1 {
      AcceptedExact(fuel, r, st, call);
      var (prop, undo) := Proposal(fuel, r, st, call.symbol, call.value).value;
      FreezingReduces(r, prop, undo);
      FreezingExact(r, FixedAt(r, prop), ViewOf(Conceal(prop, undo)), st.reduced);
    }
  }

  // ----- runs

  ghost predicate LosesNothing(fuel: nat, r: Rules, st: State, steps: seq<Step>)
    decreases |steps|
  {
    steps != [] ==>
      && !(steps[0].Set? && Loses(fuel, r, st, steps[0].call))
      && var res := After(fuel, r, st, steps[0]);
         res.Done? ==> LosesNothing(fuel, r, res.value, steps[1..])
  }

  lemma {:induction false} SimplifyLoses(r: Rules, fixed: set<Id>, v: View, formulas: seq<Expr>, e: Expr)
    requires e in formulas && Lost(r, fixed, v, e) && SimplifyAll(r, fixed, v, formulas).Done?
    ensures Lit(N) in SimplifyAll(r, fixed, v, formulas).value
  {
    hide EvalFrozen, Lost;
    if formulas[0] == e {
      LostExact(r, fixed, v, e);
    } else {
      SimplifyLoses(r, fixed, v, formulas[1..], e);
    }
  }

  ghost predicate Broken(st: State) { Quiescent(st) && Lit(N) in st.reduced }

  lemma BrokenFails(r: Rules, v: View, formulas: seq<Expr>)
    requires Lit(N) in formulas
    ensures !Holds(r, v, formulas)
  {
    assert Eval(r, v, Lit(N)) == N;
  }

  lemma LosingBreaks(fuel: nat, r: Rules, st: State, call: Call)
    requires Consistent(r, st) && MenuMatches(r, call.symbol) && Loses(fuel, r, st, call)
    ensures var res := SetSymbol(fuel, r, st, call.symbol, call.value, call.freeze);
            res.Done? ==> res.value.1 && Broken(res.value.0)
  {
    hide Inv, Proposal, Holds, SimplifyAll, FixedAt, Lost, Commit, Failures, Visible, Decide, SetSymbol, Quiescent;
    if SetSymbol(fuel, r, st, call.symbol, call.value, call.freeze).Done? {
      AcceptedExact(fuel, r, st, call);
      var (prop, undo) := Proposal(fuel, r, st, call.symbol, call.value).value;
      FreezingReduces(r, prop, undo);
      var v := ViewOf(Conceal(prop, undo));
      var e :| e in st.reduced && Lost(r, FixedAt(r, prop), v, e);
      SimplifyLoses(r, FixedAt(r, prop), v, st.reduced, e);
    }
  }

  /** After a formula was frozen to n, no setting is accepted any more. */
  lemma BrokenStays(fuel: nat, r: Rules, st: State, call: Call)
    requires Broken(st)
    ensures var res := SetSymbol(fuel, r, st, call.symbol, call.value, call.freeze);
            res.Done? ==> !res.value.1 && Broken(res.value.0)
  {
    hide Inv, Proposal, Decide, Holds, BindCommit;
    if SetSymbol(fuel, r, st, call.symbol, call.value, call.freeze).Done? {
      DecisionIsAboutTheCommit(fuel, r, st, call.symbol, call.value, call.freeze);
      RejectedIsUndone(fuel, r, st, call.symbol, call.value, call.freeze);
      var (prop, undo) := Proposal(fuel, r, st, call.symbol, call.value).value;
      BrokenFails(r, ViewOf(BindCommit(prop, undo)), st.reduced);
    }
  }

  lemma {:induction false} BrokenRun(fuel: nat, r: Rules, st: State, steps: seq<Step>)
    requires Broken(st)
    ensures var res := Run(fuel, r, st, steps); res.Done? ==> Broken(res.value)
    decreases |steps|
  {
    hide SetSymbol, Quiescent;
    if steps == [] {
    } else {
      match steps[0] {
        case Set(call) => BrokenStays(fuel, r, st, call);
        case Switch(i, s) => SwitchKeeps(st, i, s);
      }
      var res := After(fuel, r, st, steps[0]);
      if res.Done? { BrokenRun(fuel, r, res.value, steps[1..]); }
    }
  }

  lemma CallExact(fuel: nat, r: Rules, st: State, call: Call)
    requires Consistent(r, st) && MenuMatches(r, call.symbol)
    ensures var res := SetSymbol(fuel, r, st, call.symbol, call.value, call.freeze);
            res.Done? ==> if Loses(fuel, r, st, call) then Broken(res.value.0) else Consistent(r, res.value.0)
  {
    hide Inv, Proposal, Decide, Holds, FixedAt, Lost, SetSymbol, Quiescent;
    var res := SetSymbol(fuel, r, st, call.symbol, call.value, call.freeze);
    if res.Done? {
      RejectedIsUndone(fuel, r, st, call.symbol, call.value, call.freeze);
      CallQuiescent(fuel, r, st, call);
      if !call.freeze {
        PlainCall(fuel, r, st, call);
      } else if Loses(fuel, r, st, call) {
        LosingBreaks(fuel, r, st, call);
      } else if res.value.1 {
        FreezingCallExact(fuel, r, st, call);
      } else {
        assert ViewOf(res.value.0) == ViewOf(st);
      }
    }
  }

  /**
   * Whole-run safety, exactly: after a run every formula left by freezing holds if and only if no freezing call on the
   * way lost one. (One that did leaves a state in which every setting is rejected.)
   */
  lemma {:induction false} RunExact(fuel: nat, r: Rules, st: State, steps: seq<Step>)
    requires Consistent(r, st) && MenusMatch(r)
    ensures var res := Run(fuel, r, st, steps);
            res.Done? ==>
              && Quiescent(res.value)
              && (Holds(r, ViewOf(res.value), res.value.reduced) <==> LosesNothing(fuel, r, st, steps))
    decreases |steps|
  {
    hide SetSymbol, Loses, Quiescent, Holds;
    if steps == [] {
    } else {
      match steps[0] {
        case Set(call) => CallExact(fuel, r, st, call);
        case Switch(i, s) => SwitchKeeps(st, i, s);
      }
      var res := After(fuel, r, st, steps[0]);
      if res.Done? && steps[0].Set? && Loses(fuel, r, st, steps[0].call) {
        BrokenRun(fuel, r, res.value, steps[1..]);
        var end := Run(fuel, r, res.value, steps[1..]);
        if end.Done? { BrokenFails(r, ViewOf(end.value), end.value.reduced); }
      } else if res.Done? {
        RunExact(fuel, r, res.value, steps[1..]);
      }
    }
  }

  // ----- freezing a symbol at the value it has

  lemma NoCommitSet(r: Rules, newb: map<Id, Chain>)
    requires newb == map[]
    ensures CommitSet(r, newb.Keys) == Done({})
  {
    assert newb.Keys == {};
    assert CommitSet(r, newb.Keys).value == {};
  }

  lemma EmptyCommit(st: State)
    requires st.newb == map[]
    ensures BindCommit(st, {}) == st
  {
    assert ChainIds(st.oldb, {}) == {};
    forall s | s in st.cache ensures Without(st.cache[s], {}) == st.cache[s] { WithoutNone(st.cache[s], {}); }
    assert Drop(st.cache, {}) == st.cache;
  }

  lemma IdleProposal(fuel: nat, r: Rules, st: State, s: Id, value: Trit)
    requires fuel > 0 && st.newb == map[] && st.chilled == map[] && st.touched == []
    requires EvalSymbol(r, ViewOf(st), s) == value
    ensures Proposal(fuel, r, st, s, value) == Done((st.(touched := [s], changesToFrozen := []), {}))
  {
    hide SideEffects, Bind, EvalSymbol;
    var touched := st.(touched := [s], changesToFrozen := []);
    assert st.touched + [s] == [s];
    assert ViewOf(touched) == ViewOf(st);
    assert SetInternal(fuel, r, st.(changesToFrozen := []), s, value, s, Plain) == Done(touched);
    NoCommitSet(r, touched.newb);
  }

  lemma IdleFreezeTouched(r: Rules, st: State, s: Id, reduced: seq<Expr>)
    requires st.chilled == map[] && st.touched == []
    requires r.At(s).menu.Some? && !r.At(r.At(s).menu.value).kind.ChoicesKind?
    requires SimplifyAll(r, FrozenSet(r, st.(iced := st.iced + {s})), ViewOf(st), st.reduced) == Done(reduced)
    ensures FreezeTouched(r, st.(touched := [s])) ==
            Done(st.(iced := st.iced + {s}, reduced := reduced, access := Access(r, reduced)))
  {
    hide EvalSymbol, SimplifyAll, Access, Shown;
    var iced := st.(iced := st.iced + {s});
    assert FreezeAll(r, st.iced, [s]) == st.iced + {s};
    assert FrozenSet(r, iced) + iced.chilled.Keys == FrozenSet(r, iced);
    assert ViewOf(iced) == ViewOf(st);
    assert st.(touched := [s]).(iced := FreezeAll(r, st.iced, [s]), touched := []) == iced;
  }

  /** Freezing a symbol at the value it has, all formulas holding, freezes it and simplifies the formulas. */
  lemma IdleFreeze(fuel: nat, r: Rules, st: State, s: Id, reduced: seq<Expr>)
    requires fuel > 0 && Consistent(r, st) && r.At(s).menu.Some? && !r.At(r.At(s).menu.value).kind.ChoicesKind?
    requires SimplifyAll(r, FrozenSet(r, st.(iced := st.iced + {s})), ViewOf(st), st.reduced) == Done(reduced)
    ensures SetSymbol(fuel, r, st, s, EvalSymbol(r, ViewOf(st), s), true) ==
            Done((st.(changesToFrozen := [], iced := st.iced + {s}, reduced := reduced, access := Access(r, reduced)),
                  true))
  {
    hide Inv, EvalSymbol, Proposal, SimplifyAll, Holds, Access, FreezeTouched, FrozenSet, Shown, BindCommit, CommitSet;
    var calm := st.(changesToFrozen := []);
    assert calm.(iced := calm.iced + {s}) == st.(iced := st.iced + {s}, changesToFrozen := []);
    assert ViewOf(calm) == ViewOf(st);
    IdleProposal(fuel, r, st, s, EvalSymbol(r, ViewOf(st), s));
    assert Conceal(calm.(touched := [s]), {}) == calm.(touched := [s]);
    FailuresExact(r, ViewOf(st), st.reduced);
    SameFrozenSet(r, st.(iced := st.iced + {s}), calm.(iced := calm.iced + {s}));
    IdleFreezeTouched(r, calm, s, reduced);
    var after := calm.(iced := st.iced + {s}, reduced := reduced, access := Access(r, reduced));
    NoCommitSet(r, after.newb);
    EmptyCommit(after);
  }

  /**
   * So whether freezing a symbol at its value keeps the formulas satisfied can be told beforehand, from the formulas,
   * the values and the frozen set.
   */
  lemma IdleFreezeExact(fuel: nat, r: Rules, st: State, s: Id)
    requires fuel > 0 && Consistent(r, st) && r.At(s).menu.Some? && !r.At(r.At(s).menu.value).kind.ChoicesKind?
    requires SimplifyAll(r, FrozenSet(r, st.(iced := st.iced + {s})), ViewOf(st), st.reduced).Done?
    ensures var res := SetSymbol(fuel, r, st, s, EvalSymbol(r, ViewOf(st), s), true);
            && res.Done? && res.value.1 && ViewOf(res.value.0) == ViewOf(st)
            && (Holds(r, ViewOf(res.value.0), res.value.0.reduced) <==>
                  forall e | e in st.reduced :: !Lost(r, FrozenSet(r, st.(iced := st.iced + {s})), ViewOf(st), e))
  {
    hide Quiescent, EvalSymbol, SimplifyAll, Holds, Access, FrozenSet, Shown, SetSymbol, Lost;
    var fixed := FrozenSet(r, st.(iced := st.iced + {s}));
    IdleFreeze(fuel, r, st, s, SimplifyAll(r, fixed, ViewOf(st), st.reduced).value);
    FreezingExact(r, fixed, ViewOf(st), st.reduced);
    assert ViewOf(SetSymbol(fuel, r, st, s, EvalSymbol(r, ViewOf(st), s), true).value.0) == ViewOf(st);
  }
}
