/** Whole runs of a front end: what holds in every state they reach. */
module Runs {
  import opened Options
  import opened Arithmetic
  import opened Rulebase
  import opened PartialEval
  import opened Journal
  import opened Propagation
  import opened FrozenSymbols
  import opened Transactions
  import opened Sessions

  // ----- one call

  function Pairs(ids: set<Id>): set<(Id, Trit)> { set s, t | s in ids && t in {N, M, Y} :: (s, t) }

  lemma {:induction false} PairsSize(ids: set<Id>)
    ensures |Pairs(ids)| == 3 * |ids|
  {
    if ids == {} {
    } else {
      var s :| s in ids;
      PairsSize(ids - {s});
      assert Pairs(ids) == Pairs(ids - {s}) + {(s, N), (s, M), (s, Y)};
      assert |ids| == |ids - {s}| + 1;
    }
  }

  lemma {:induction false} ChainBound(chain: Chain, ids: set<Id>)
    requires PairsDistinct(chain) && forall b | b in chain :: b.symbol in ids
    ensures |chain| <= 3 * |ids|
  {
    var made := set b | b in chain :: (b.symbol, b.value);
    PairCount(chain);
    forall pair | pair in made ensures pair in Pairs(ids) {
      var b :| b in chain && pair == (b.symbol, b.value);
      assert b.value.N? || b.value.M? || b.value.Y?;
    }
    SubsetSize(made, Pairs(ids));
    PairsSize(ids);
  }

  lemma {:induction false} PairCount(chain: Chain)
    requires PairsDistinct(chain)
    ensures |set b | b in chain :: (b.symbol, b.value)| == |chain|
  {
    if chain == [] {
    } else {
      PairCount(chain[1..]);
      var rest := set b | b in chain[1..] :: (b.symbol, b.value);
      var head := (chain[0].symbol, chain[0].value);
      assert head !in rest;
      assert (set b | b in chain :: (b.symbol, b.value)) == rest + {head};
    }
  }

  /**
   * All bindings a call makes hang on the symbol the user sets, at most three for each symbol of the rulebase;
   * and the clash of two sources for which the source keeps an exception cannot occur.
   */
  lemma SingleSource(fuel: nat, r: Rules, st: State, s: Id, value: Trit, freeze: bool)
    requires Quiescent(st)
    ensures SetSymbol(fuel, r, st, s, value, freeze) != Raised(Unsatisfiable)
    ensures var proposal := Proposal(fuel, r, st, s, value);
            proposal.Done? ==> proposal.value.0.newb.Keys <= {s} &&
                               |ChainOf(proposal.value.0.newb, s)| <= 3 * |st.cache|
  {
    hide Inv, Within, Commit, Proposal, PairsDistinct;
    ProposalWithin(fuel, r, st, s, value);
    var proposal := Proposal(fuel, r, st, s, value);
    if proposal.Done? {
      var (prop, undo) := proposal.value;
      NewBindings(r, st, prop, s);
      CommitNeverUnsatisfiable(r, SaneCheck(r, Conceal(prop, undo)), freeze);
    }
  }

  lemma NewBindings(r: Rules, st: State, prop: State, s: Id)
    requires Within(r, st, prop, s)
    ensures prop.newb.Keys <= {s} && |ChainOf(prop.newb, s)| <= 3 * |st.cache|
  {
    hide Inv, Within;
    ChainStacked(r, st, prop, s);
    ChainBound(ChainOf(prop.newb, s), st.cache.Keys);
  }

  lemma ChainStacked(r: Rules, st0: State, st: State, source: Id)
    requires Within(r, st0, st, source)
    ensures PairsDistinct(ChainOf(st.newb, source)) && st.newb.Keys <= {source}
    ensures forall b | b in ChainOf(st.newb, source) :: b.symbol in st0.cache.Keys
  {
    hide Drop, Stacks;
    forall b | b in ChainOf(st.newb, source) ensures b.symbol in st0.cache.Keys {
      assert Owns(st.newb, source, b);
    }
  }

  lemma {:induction false} SimplifyAllRaises(r: Rules, fixed: set<Id>, v: View, formulas: seq<Expr>)
    ensures SimplifyAll(r, fixed, v, formulas) != Raised(Unsatisfiable)
  {
    if formulas == [] {
    } else {
      SimplifyAllRaises(r, fixed, v, formulas[1..]);
    }
  }

  lemma CommitNeverUnsatisfiable(r: Rules, st: State, freeze: bool)
    ensures Commit(r, st, freeze) != Raised(Unsatisfiable)
  {
    if freeze {
      var iced := st.(iced := FreezeAll(r, st.iced, st.touched), touched := []);
      SimplifyAllRaises(r, FrozenSet(r, iced) + iced.chilled.Keys, ViewOf(iced), iced.reduced);
    }
  }

  // ----- runs

  datatype Call = Call(symbol: Id, value: Trit, freeze: bool)

  /** What a front end does: it sets a symbol, or turns the interactive and the suppressions flag on or off. */
  datatype Step = Set(call: Call) | Switch(interactive: bool, suppressions: bool)

  /** The state after the step, accepted or rejected; fails if it does not return. */
  function After(fuel: nat, r: Rules, st: State, step: Step): Result<State> {
    match step
    case Set(c) =>
      var (st, _) :- SetSymbol(fuel, r, st, c.symbol, c.value, c.freeze);
      Done(st)
    case Switch(interactive, suppressions) =>
      Done(st.(interactive := interactive, suppressions := suppressions))
  }

  function Run(fuel: nat, r: Rules, st: State, steps: seq<Step>): Result<State>
    decreases |steps|
  {
    if steps == [] then Done(st) else
    var st :- After(fuel, r, st, steps[0]);
    Run(fuel, r, st, steps[1..])
  }

  /** The state after loading a rulebase. */
  function Clear(r: Rules): State {
    var access := Access(r, r.constraints);
    State(map s | s in access :: [], map[], map[], {}, 0, {}, map[], [], [], r.constraints, access,
          r.tritTie.None? || EvalSymbol(r, map[], r.tritTie.value) != N, true, true)
  }

  ghost predicate MenusMatch(r: Rules) { forall s: Id :: MenuMatches(r, s) }

  ghost predicate Consistent(r: Rules, st: State) { Quiescent(st) && Holds(r, ViewOf(st), st.reduced) }

  lemma ClearIsConsistent(r: Rules)
    requires Holds(r, map[], r.constraints)
    ensures Consistent(r, Clear(r)) && Clear(r).reduced == r.constraints && Unbound(r, Clear(r))
  {
    var st := Clear(r);
    assert forall b :: !Stacked(st.cache, b);
    assert ViewOf(st) == map[];
  }

  lemma CallQuiescent(fuel: nat, r: Rules, st: State, call: Call)
    requires Quiescent(st) && MenuMatches(r, call.symbol)
    ensures var res := SetSymbol(fuel, r, st, call.symbol, call.value, call.freeze);
            res.Done? ==> Quiescent(res.value.0)
  {
    hide Quiescent, SetSymbol;
    RejectedIsUndone(fuel, r, st, call.symbol, call.value, call.freeze);
    var res := SetSymbol(fuel, r, st, call.symbol, call.value, call.freeze);
    if res.Done? && res.value.1 { AcceptedCommit(fuel, r, st, call.symbol, call.value, call.freeze); }
  }

  /** The switches touch neither the journal nor the formulas. */
  lemma SwitchKeeps(st: State, interactive: bool, suppressions: bool)
    ensures var st' := st.(interactive := interactive, suppressions := suppressions);
            ViewOf(st') == ViewOf(st) && (Quiescent(st) ==> Quiescent(st'))
  {
    hide Inv;
    var st' := st.(interactive := interactive, suppressions := suppressions);
    if Inv(st) { InvFrame(st, st'); }
  }

  lemma {:induction false} QuiescentRun(fuel: nat, r: Rules, st: State, steps: seq<Step>)
    requires Quiescent(st) && MenusMatch(r)
    ensures var res := Run(fuel, r, st, steps); res.Done? ==> Quiescent(res.value)
    decreases |steps|
  {
    hide Quiescent, SetSymbol;
    if steps == [] {
    } else {
      match steps[0] {
        case Set(call) => CallQuiescent(fuel, r, st, call);
        case Switch(i, s) => SwitchKeeps(st, i, s);
      }
      var res := After(fuel, r, st, steps[0]);
      if res.Done? { QuiescentRun(fuel, r, res.value, steps[1..]); }
    }
  }

  lemma ClearIsQuiescent(r: Rules)
    ensures Quiescent(Clear(r))
  {
    assert forall b :: !Stacked(Clear(r).cache, b);
  }

  /** In every state that steps lead to from a fresh rulebase the journal is a partition, and nothing is pending. */
  lemma AlwaysPartition(fuel: nat, r: Rules, steps: seq<Step>)
    requires MenusMatch(r)
    ensures var res := Run(fuel, r, Clear(r), steps);
            res.Done? ==>
              Inv(res.value) && res.value.newb == map[] && res.value.hidden == {} && res.value.chilled == map[]
  {
    ClearIsQuiescent(r);
    QuiescentRun(fuel, r, Clear(r), steps);
  }

  /** One call keeps the formulas satisfied; without freezing they are the same formulas. */
  lemma PlainCall(fuel: nat, r: Rules, st: State, call: Call)
    requires Consistent(r, st) && MenuMatches(r, call.symbol) && !call.freeze
    ensures var res := SetSymbol(fuel, r, st, call.symbol, call.value, call.freeze);
            res.Done? ==> Consistent(r, res.value.0) && res.value.0.reduced == st.reduced
  {
    hide Inv, Proposal, BindCommit, Holds;
    var res := SetSymbol(fuel, r, st, call.symbol, call.value, call.freeze);
    if res.Done? {
      ProposalReduced(fuel, r, st, call.symbol, call.value);
      RejectedIsUndone(fuel, r, st, call.symbol, call.value, call.freeze);
      DecisionIsAboutTheCommit(fuel, r, st, call.symbol, call.value, call.freeze);
      if res.value.1 {
        AcceptedCommit(fuel, r, st, call.symbol, call.value, call.freeze);
        CommitFormulas(r, SaneCheck(r, Conceal(Proposal(fuel, r, st, call.symbol, call.value).value.0,
                                               Proposal(fuel, r, st, call.symbol, call.value).value.1)));
      }
    }
  }

  lemma ProposalReduced(fuel: nat, r: Rules, st: State, s: Id, value: Trit)
    requires Quiescent(st)
    ensures var res := Proposal(fuel, r, st, s, value); res.Done? ==> res.value.0.reduced == st.reduced
  {
    hide Inv, Within, Proposal;
    ProposalWithin(fuel, r, st, s, value);
    var res := Proposal(fuel, r, st, s, value);
    if res.Done? { ProposalFormulas(r, st, res.value.0, s); }
  }

  lemma CommitFormulas(r: Rules, st: State)
    ensures Commit(r, st, false).Done? ==> Commit(r, st, false).value.reduced == st.reduced
  {
  }

  predicate Freezes(step: Step) { step.Set? && step.call.freeze }

  /** Whole-run safety without freezing: every constraint of the rulebase holds after every step. */
  lemma {:induction false} PlainRun(fuel: nat, r: Rules, st: State, steps: seq<Step>)
    requires Consistent(r, st) && MenusMatch(r) && forall step | step in steps :: !Freezes(step)
    ensures var res := Run(fuel, r, st, steps);
            res.Done? ==> Consistent(r, res.value) && res.value.reduced == st.reduced
    decreases |steps|
  {
    hide Quiescent, Holds, SetSymbol;
    if steps == [] {
    } else {
      assert steps[0] in steps;
      match steps[0] {
        case Set(call) => PlainCall(fuel, r, st, call);
        case Switch(i, s) => SwitchKeeps(st, i, s);
      }
      var res := After(fuel, r, st, steps[0]);
      if res.Done? { PlainRun(fuel, r, res.value, steps[1..]); }
    }
  }

  lemma ConstraintsAlwaysHold(fuel: nat, r: Rules, steps: seq<Step>)
    requires Holds(r, map[], r.constraints) && MenusMatch(r) && forall step | step in steps :: !Freezes(step)
    ensures var res := Run(fuel, r, Clear(r), steps);
            res.Done? ==> Inv(res.value) && Holds(r, ViewOf(res.value), r.constraints)
  {
    ClearIsConsistent(r);
    PlainRun(fuel, r, Clear(r), steps);
  }

  // ----- runs that freeze

  ghost predicate AllTame(r: Rules, formulas: seq<Expr>) { forall e | e in formulas :: Tame(r, Up, e) }

  lemma UnboundView(r: Rules, st: State, undo: set<Id>)
    requires Unbound(r, st)
    ensures DerivedUnbound(r, ViewOf(Conceal(st, undo))) && Unbound(r, BindCommit(st, undo))
  {
  }

  lemma {:induction false} SimplifyAllHolds(r: Rules, fixed: set<Id>, v: View, formulas: seq<Expr>)
    requires Holds(r, v, formulas) && AllTame(r, formulas) && DerivedUnbound(r, v)
    ensures var res := SimplifyAll(r, fixed, v, formulas);
            res.Done? && Holds(r, v, res.value) && AllTame(r, res.value)
  {
    if formulas == [] {
    } else {
      var e := formulas[0];
      assert Tame(r, Up, e) && Eval(r, v, e) != N;
      TameKeeps(r, fixed, v, Up, e);
      SimplifyAllHolds(r, fixed, v, formulas[1..]);
      hide Eval, EvalFrozen, Tame;
    }
  }

  lemma FreezingCommit(r: Rules, st: State)
    requires Holds(r, ViewOf(st), st.reduced) && AllTame(r, st.reduced) && DerivedUnbound(r, ViewOf(st))
    ensures FreezeTouched(r, st).Done? && FreezeTouched(r, st).value.cache == st.cache
    ensures Holds(r, ViewOf(st), FreezeTouched(r, st).value.reduced) && AllTame(r, FreezeTouched(r, st).value.reduced)
  {
    var iced := st.(iced := FreezeAll(r, st.iced, st.touched), touched := []);
    SimplifyAllHolds(r, FrozenSet(r, iced) + iced.chilled.Keys, ViewOf(iced), iced.reduced);
  }

  lemma ProposalUnbound(r: Rules, st0: State, st: State, source: Id)
    requires Within(r, st0, st, source) && Linked(r) && !r.At(source).derived && Unbound(r, st0)
    ensures Unbound(r, st)
  {
    hide Inv, Drop;
  }

  ghost predicate Sturdy(r: Rules, st: State) { Consistent(r, st) && AllTame(r, st.reduced) && Unbound(r, st) }

  lemma UnboundNow(r: Rules, st: State)
    requires Unbound(r, st)
    ensures DerivedUnbound(r, ViewOf(st))
  {
  }

  lemma CallUnbound(fuel: nat, r: Rules, st: State, call: Call)
    requires Quiescent(st) && Linked(r) && !r.At(call.symbol).derived && MenuMatches(r, call.symbol) && Unbound(r, st)
    ensures var res := SetSymbol(fuel, r, st, call.symbol, call.value, call.freeze);
            res.Done? ==> Unbound(r, res.value.0)
  {
    hide Inv, Proposal, Visible, Linked, Within, SetSymbol, Unbound, Holds;
    var res := SetSymbol(fuel, r, st, call.symbol, call.value, call.freeze);
    if res.Done? {
      RejectedIsUndone(fuel, r, st, call.symbol, call.value, call.freeze);
      if res.value.1 {
        DecisionIsAboutTheCommit(fuel, r, st, call.symbol, call.value, call.freeze);
        var (prop, undo) := Proposal(fuel, r, st, call.symbol, call.value).value;
        ProposalWithin(fuel, r, st, call.symbol, call.value);
        ProposalUnbound(r, st, prop, call.symbol);
        UnboundView(r, prop, undo);
        SameCache(r, BindCommit(prop, undo), res.value.0);
      } else {
        SameCache(r, st, res.value.0);
      }
    }
  }

  /** One call, freezing or not, keeps tame formulas satisfied and tame. */
  lemma FreezingCall(fuel: nat, r: Rules, st: State, call: Call)
    requires Sturdy(r, st) && MenuMatches(r, call.symbol) && Linked(r) && !r.At(call.symbol).derived
    ensures var res := SetSymbol(fuel, r, st, call.symbol, call.value, call.freeze);
            res.Done? ==> Sturdy(r, res.value.0)
  {
    hide Inv, Within, Holds, AllTame, Unbound, Proposal, FreezeTouched, Drop, ChainIds;
    var s := call.symbol;
    var res := SetSymbol(fuel, r, st, s, call.value, call.freeze);
    if res.Raised? { return; }
    ProposalWithin(fuel, r, st, s, call.value);
    RejectedIsUndone(fuel, r, st, s, call.value, call.freeze);
    if res.value.1 {
      AcceptedCommit(fuel, r, st, s, call.value, call.freeze);
      DecisionIsAboutTheCommit(fuel, r, st, s, call.value, call.freeze);
      var (prop, undo) := Proposal(fuel, r, st, s, call.value).value;
      ProposalUnbound(r, st, prop, s);
      ProposalFormulas(r, st, prop, s);
      ConcealIsCommit(prop, undo);
      UnboundView(r, prop, undo);
      SturdyCommit(r, SaneCheck(r, Conceal(prop, undo)), call.freeze);
      SameCache(r, BindCommit(prop, undo), res.value.0);
    } else {
      SameCache(r, st, res.value.0);
    }
  }

  lemma SameCache(r: Rules, a: State, b: State)
    requires a.cache == b.cache
    ensures Unbound(r, a) ==> Unbound(r, b)
  {
  }

  lemma SturdyCommit(r: Rules, st: State, freeze: bool)
    requires Holds(r, ViewOf(st), st.reduced) && AllTame(r, st.reduced) && DerivedUnbound(r, ViewOf(st))
    ensures var res := Commit(r, st, freeze);
            res.Done? ==> Holds(r, ViewOf(st), res.value.reduced) && AllTame(r, res.value.reduced)
  {
    hide Holds, AllTame, DerivedUnbound, FreezeTouched, Visible, Settle, BindCommit, CommitSet;
    if freeze {
      FreezingCommit(r, st);
      FreezingFormulas(r, st);
    } else {
      CommitFormulas(r, st);
    }
  }

  lemma FreezingFormulas(r: Rules, st: State)
    requires FreezeTouched(r, st).Done?
    ensures Commit(r, st, true).Done? ==> Commit(r, st, true).value.reduced == FreezeTouched(r, st).value.reduced
  {
  }

  /** The user sets no derived symbols. */
  ghost predicate SetsSettable(r: Rules, steps: seq<Step>) {
    forall step | step in steps && step.Set? :: !r.At(step.call.symbol).derived
  }

  /** Whole-run safety with freezing, for tame formulas: what freezing left of them holds after every step. */
  lemma {:induction false} FreezingRun(fuel: nat, r: Rules, st: State, steps: seq<Step>)
    requires Sturdy(r, st) && MenusMatch(r) && Linked(r) && SetsSettable(r, steps)
    ensures var res := Run(fuel, r, st, steps); res.Done? ==> Sturdy(r, res.value)
    decreases |steps|
  {
    hide Quiescent, Holds, AllTame, Unbound, SetSymbol, Linked;
    if steps == [] {
    } else {
      assert steps[0] in steps;
      match steps[0] {
        case Set(call) => FreezingCall(fuel, r, st, call);
        case Switch(i, s) =>
          SwitchKeeps(st, i, s);
          SameCache(r, st, st.(interactive := i, suppressions := s));
      }
      var res := After(fuel, r, st, steps[0]);
      if res.Done? { FreezingRun(fuel, r, res.value, steps[1..]); }
    }
  }

  lemma FormulasAlwaysHold(fuel: nat, r: Rules, steps: seq<Step>)
    requires Holds(r, map[], r.constraints) && AllTame(r, r.constraints)
    requires MenusMatch(r) && Linked(r) && SetsSettable(r, steps)
    ensures var res := Run(fuel, r, Clear(r), steps);
            res.Done? ==> Inv(res.value) && Holds(r, ViewOf(res.value), res.value.reduced)
  {
    ClearIsConsistent(r);
    FreezingRun(fuel, r, Clear(r), steps);
  }
}
