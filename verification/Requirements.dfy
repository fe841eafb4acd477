/**
 * The rulebase's own requirements (contrib/cml2/cmlsystem.py): exactly when the formulas that freezing simplifies go on
 * standing for them, and runs that keep all of them.
 */
module Requirements {
  import opened Options
  import opened Rulebase
  import opened PartialEval
  import opened Journal
  import opened Propagation
  import opened FrozenSymbols
  import opened Transactions
  import opened Sessions
  import opened Runs
  import opened Freezing
  import opened Permanence

  // ----- standing for a formula

  /** Whatever the symbols that are not fixed are set to, both formulas hold or neither does. */
  ghost predicate SameTruth(r: Rules, fixed: set<Id>, v: View, e: Expr, d: Expr) {
    forall w | Agrees(r, fixed, v, w) :: Eval(r, w, e) != N <==> Eval(r, w, d) != N
  }

  /** The formulas stand for the requirements of the rulebase, as far as the frozen symbols leave a choice. */
  ghost predicate AllSame(r: Rules, fixed: set<Id>, v: View, formulas: seq<Expr>, others: seq<Expr>) {
    |formulas| == |others| && forall i | 0 <= i < |formulas| :: SameTruth(r, fixed, v, formulas[i], others[i])
  }

  ghost predicate Faithful(r: Rules, st: State) {
    AllSame(r, FrozenSet(r, st), ViewOf(st), st.reduced, r.constraints)
  }

  ghost predicate SameFrozen(r: Rules, fixed: set<Id>, v: View, w: View) {
    forall s | s in fixed :: EvalSymbol(r, v, s) == EvalSymbol(r, w, s)
  }

  /** Then the formulas that hold make the requirements hold. */
  lemma FaithfulHolds(r: Rules, st: State)
    requires Faithful(r, st) && Holds(r, ViewOf(st), st.reduced) && DerivedUnbound(r, ViewOf(st))
    ensures Holds(r, ViewOf(st), r.constraints)
  {
    hide Eval, FrozenSet, EvalSymbol, Visible;
    assert Agrees(r, FrozenSet(r, st), ViewOf(st), ViewOf(st));
    forall e | e in r.constraints ensures Eval(r, ViewOf(st), e) != N {
      var i :| 0 <= i < |r.constraints| && r.constraints[i] == e;
      assert SameTruth(r, FrozenSet(r, st), ViewOf(st), st.reduced[i], r.constraints[i]);
      assert st.reduced[i] in st.reduced;
    }
  }

  /** More fixed symbols, with the old ones at their values, leave fewer valuations. */
  lemma FewerAgree(r: Rules, fixed: set<Id>, v: View, more: set<Id>, v': View, w: View)
    requires fixed <= more && SameFrozen(r, fixed, v, v') && Agrees(r, more, v', w)
    ensures Agrees(r, fixed, v, w)
  {
    hide EvalSymbol;
  }

  lemma SameTruthLater(r: Rules, fixed: set<Id>, v: View, more: set<Id>, v': View, e: Expr, d: Expr)
    requires fixed <= more && SameFrozen(r, fixed, v, v') && SameTruth(r, fixed, v, e, d)
    ensures SameTruth(r, more, v', e, d)
  {
    hide Eval, Agrees, SameFrozen;
    forall w | Agrees(r, more, v', w) ensures Eval(r, w, e) != N <==> Eval(r, w, d) != N {
      FewerAgree(r, fixed, v, more, v', w);
    }
  }

  // ----- simplifying

  /** The simplified formula stands for the formula. */
  ghost predicate StandsFor(r: Rules, fixed: set<Id>, v: View, e: Expr) {
    Simplify(r, fixed, v, e).Done? && SameTruth(r, fixed, v, Simplify(r, fixed, v, e).value, e)
  }

  lemma CleanStands(r: Rules, fixed: set<Id>, v: View, e: Expr)
    requires Clean(r, fixed, v, e)
    ensures StandsFor(r, fixed, v, e)
  {
    hide Clean, EvalFrozen, Agrees;
    CleanIsSound(r, fixed, v, e);
    CleanNeverTruth(r, fixed, v, e);
  }

  /**
   * The faulty implies step, for clean operands: the simplified implication stands for the implication unless its
   * premise is open and can hold and its conclusion is frozen at n.
   */
  lemma ImpliesStandsExact(r: Rules, fixed: set<Id>, v: View, a: Expr, b: Expr)
    requires DerivedUnbound(r, v) && Clean(r, fixed, v, a) && Clean(r, fixed, v, b)
    ensures StandsFor(r, fixed, v, Bin(Implies, a, b)) <==>
            !(EvalFrozen(r, fixed, v, a).Unknown? && EvalFrozen(r, fixed, v, b) == Const(N) && CanHold(r, fixed, v, a))
  {
    ImpliesExact(r, fixed, v, a, b);
    ImpliesReports(r, fixed, v, a, b);
  }

  lemma ImpliesReports(r: Rules, fixed: set<Id>, v: View, a: Expr, b: Expr)
    requires Clean(r, fixed, v, a) && Clean(r, fixed, v, b)
    ensures StandsFor(r, fixed, v, Bin(Implies, a, b)) <==> Sound(r, fixed, v, Bin(Implies, a, b))
  {
    CleanNeverTruth(r, fixed, v, a);
    CleanNeverTruth(r, fixed, v, b);
    var e, f, g := Bin(Implies, a, b), EvalFrozen(r, fixed, v, a), EvalFrozen(r, fixed, v, b);
    assert EvalFrozen(r, fixed, v, e) == Combine(Implies, f, g);
    assert forall w :: Eval(r, w, e) == Apply(Implies, Eval(r, w, a), Eval(r, w, b));
    hide EvalFrozen, Eval, Agrees, Clean;
    assert forall w :: Eval(r, w, Lit(Y)) == Y && Eval(r, w, Lit(N)) == N && Eval(r, w, One) == Y by { Constants(r); }
  }

  lemma Constants(r: Rules)
    ensures forall w: View :: Eval(r, w, Lit(Y)) == Y && Eval(r, w, Lit(N)) == N && Eval(r, w, One) == Y
  {
  }

  /** `s implies b` for a settable symbol s and a clean b: exactly the guard of the faulty branch does harm. */
  ghost predicate Guarded(r: Rules, fixed: set<Id>, v: View, e: Expr) {
    e.Bin? && e.op.Implies? && e.left.Ref? && !r.At(e.left.symbol).derived && Clean(r, fixed, v, e.right)
  }

  lemma GuardedStandsExact(r: Rules, fixed: set<Id>, v: View, e: Expr)
    requires DerivedUnbound(r, v) && Guarded(r, fixed, v, e) && forall f | f in fixed :: !r.At(f).derived
    ensures StandsFor(r, fixed, v, e) <==> Clean(r, fixed, v, e)
    ensures Clean(r, fixed, v, e) <==> !(e.left.symbol !in fixed && EvalFrozen(r, fixed, v, e.right) == Const(N))
  {
    SymbolImpliesExact(r, fixed, v, e.left.symbol, e.right);
    assert Clean(r, fixed, v, e.left);
    ImpliesReports(r, fixed, v, e.left, e.right);
  }

  lemma {:induction false} SimplifiedAt(r: Rules, fixed: set<Id>, v: View, formulas: seq<Expr>, i: nat)
    requires SimplifyAll(r, fixed, v, formulas).Done? && i < |formulas|
    ensures Simplify(r, fixed, v, formulas[i]) == Done(SimplifyAll(r, fixed, v, formulas).value[i])
  {
    hide Simplify;
    if i == 0 {
    } else {
      SimplifiedAt(r, fixed, v, formulas[1..], i - 1);
    }
  }

  /** Formulas that stood for others go on doing so exactly if each of the simplified ones stands for its formula. */
  lemma SimplifyStandsExact(r: Rules, fixed: set<Id>, v: View, formulas: seq<Expr>, others: seq<Expr>)
    requires AllSame(r, fixed, v, formulas, others) && SimplifyAll(r, fixed, v, formulas).Done?
    ensures AllSame(r, fixed, v, SimplifyAll(r, fixed, v, formulas).value, others) <==>
            forall e | e in formulas :: StandsFor(r, fixed, v, e)
  {
    hide Simplify, SimplifyAll, SameTruth;
    var after := SimplifyAll(r, fixed, v, formulas).value;
    forall i | 0 <= i < |formulas|
      ensures StandsFor(r, fixed, v, formulas[i]) <==> SameTruth(r, fixed, v, after[i], others[i])
    {
      SimplifiedAt(r, fixed, v, formulas, i);
      SameTruthChain(r, fixed, v, after[i], formulas[i], others[i]);
    }
    if AllSame(r, fixed, v, after, others) {
      forall e | e in formulas ensures StandsFor(r, fixed, v, e) {
        var i :| 0 <= i < |formulas| && formulas[i] == e;
        assert SameTruth(r, fixed, v, after[i], others[i]);
      }
    }
  }

  lemma SameTruthChain(r: Rules, fixed: set<Id>, v: View, a: Expr, b: Expr, c: Expr)
    requires SameTruth(r, fixed, v, b, c)
    ensures SameTruth(r, fixed, v, a, b) <==> SameTruth(r, fixed, v, a, c)
  {
    hide Eval, Agrees;
  }

  // ----- calls

  lemma FixedGrows(r: Rules, st: State, prop: State)
    requires prop.iced == st.iced
    ensures FrozenSet(r, st) <= FixedAt(r, prop)
  {
    hide FreezeAll;
    FreezeAllGrows(r, prop.iced, prop.touched);
  }

  lemma CommitFreezes(r: Rules, prop: State, undo: set<Id>, freeze: bool)
    ensures var res := Commit(r, SaneCheck(r, Conceal(prop, undo)), freeze);
            res.Done? ==> FrozenSet(r, res.value) == if freeze then FixedAt(r, prop) else FrozenSet(r, prop)
  {
    hide SimplifyAll, CommitSet, FreezeAll, Access, Failures, Visible, Drop, ChainIds;
    var res := Commit(r, SaneCheck(r, Conceal(prop, undo)), freeze);
    if res.Done? {
      SameFrozenSet(r, res.value, if freeze then prop.(iced := FreezeAll(r, prop.iced, prop.touched)) else prop);
    }
  }

  /** Accepting the call would leave the frozen symbols their values. */
  ghost predicate LeavesFrozen(fuel: nat, r: Rules, st: State, call: Call) {
    var proposal := Proposal(fuel, r, st, call.symbol, call.value);
    proposal.Done? && Acceptable(r, st, proposal.value.0, proposal.value.1) ==>
      SameFrozen(r, FrozenSet(r, st), ViewOf(st), ViewOf(Conceal(proposal.value.0, proposal.value.1)))
  }

  /** Every formula's simplification at the end of the call stands for it. */
  ghost predicate StandsAll(fuel: nat, r: Rules, st: State, call: Call) {
    var proposal := Proposal(fuel, r, st, call.symbol, call.value);
    proposal.Done? && Acceptable(r, st, proposal.value.0, proposal.value.1) ==>
      var (prop, undo) := proposal.value;
      forall e | e in st.reduced :: StandsFor(r, FixedAt(r, prop), ViewOf(Conceal(prop, undo)), e)
  }

  /** None of the formulas has a faulty step at the end of the call. */
  ghost predicate CleanAll(fuel: nat, r: Rules, st: State, call: Call) {
    var proposal := Proposal(fuel, r, st, call.symbol, call.value);
    proposal.Done? && Acceptable(r, st, proposal.value.0, proposal.value.1) ==>
      var (prop, undo) := proposal.value;
      forall e | e in st.reduced :: Clean(r, FixedAt(r, prop), ViewOf(Conceal(prop, undo)), e)
  }

  /** It would if all of them are secure. */
  lemma SecureLeavesFrozen(fuel: nat, r: Rules, st: State, call: Call)
    requires Steadfast(r, st) && MenuMatches(r, call.symbol) && Linked(r) && !r.At(call.symbol).derived
    ensures LeavesFrozen(fuel, r, st, call)
  {
    hide Inv, Proposal, Within, EvalSymbol, Visible, BindCommit, Secure, Anchored, Unbound, Linked, Spares, Acceptable;
    var proposal := Proposal(fuel, r, st, call.symbol, call.value);
    if proposal.Done? {
      var (prop, undo) := proposal.value;
      ProposalWithin(fuel, r, st, call.symbol, call.value);
      UndoSpares(fuel, r, st, call.symbol, call.value);
      WithinFacts(r, st, prop, call.symbol);
      ConcealIsCommit(prop, undo);
      forall t | t in FrozenSet(r, st)
        ensures EvalSymbol(r, ViewOf(st), t) == EvalSymbol(r, ViewOf(Conceal(prop, undo)), t)
      {
        SafeCommit(r, st, prop, call.symbol, undo, t);
      }
    }
  }

  /**
   * A call keeps the formulas standing for the requirements, if all frozen symbols are secure: always, if it does not
   * freeze; exactly if every simplified formula stands for its formula, if it is accepted and freezes.
   */
  lemma FaithfulCallExact(fuel: nat, r: Rules, st: State, call: Call)
    requires Steadfast(r, st) && Faithful(r, st) && MenuMatches(r, call.symbol)
    requires Linked(r) && !r.At(call.symbol).derived
    ensures var res := SetSymbol(fuel, r, st, call.symbol, call.value, call.freeze);
            res.Done? ==>
              if res.value.1 && call.freeze then Faithful(r, res.value.0) <==> StandsAll(fuel, r, st, call)
              else Faithful(r, res.value.0)
  {
    hide Quiescent, Unbound, AllSecure, Linked, Faithful, LeavesFrozen, StandsAll, SetSymbol;
    SecureLeavesFrozen(fuel, r, st, call);
    FaithfulIfLeft(fuel, r, st, call);
  }

  /** The same for any call that leaves the frozen symbols their values. */
  lemma FaithfulIfLeft(fuel: nat, r: Rules, st: State, call: Call)
    requires Quiescent(st) && Faithful(r, st) && MenuMatches(r, call.symbol) && LeavesFrozen(fuel, r, st, call)
    ensures var res := SetSymbol(fuel, r, st, call.symbol, call.value, call.freeze);
            res.Done? ==>
              if res.value.1 && call.freeze then Faithful(r, res.value.0) <==> StandsAll(fuel, r, st, call)
              else Faithful(r, res.value.0)
  {
    hide Quiescent, Proposal, Holds, SimplifyAll, FixedAt, Commit, Failures, Visible, Decide, SetSymbol, FrozenSet,
         SameTruth, SameFrozen, StandsFor;
    var res := SetSymbol(fuel, r, st, call.symbol, call.value, call.freeze);
    if res.Done? {
      AcceptedExact(fuel, r, st, call);
      RejectedIsUndone(fuel, r, st, call.symbol, call.value, call.freeze);
      var (prop, undo) := Proposal(fuel, r, st, call.symbol, call.value).value;
      var v := ViewOf(Conceal(prop, undo));
      if !res.value.1 {
        SameFrozenSet(r, st, res.value.0);
        assert ViewOf(res.value.0) == ViewOf(st);
      } else {
        CommitFreezes(r, prop, undo, call.freeze);
        SameFrozenSet(r, prop, st);
        FixedGrows(r, st, prop);
        var fixed := if call.freeze then FixedAt(r, prop) else FrozenSet(r, st);
        AllSameLater(r, FrozenSet(r, st), ViewOf(st), fixed, v, st.reduced, r.constraints);
        if call.freeze {
          FreezingReduces(r, prop, undo);
          SimplifyStandsExact(r, fixed, v, st.reduced, r.constraints);
        } else {
          CommitFormulas(r, SaneCheck(r, Conceal(prop, undo)));
        }
      }
    }
  }

  lemma AllSameLater(r: Rules, fixed: set<Id>, v: View, more: set<Id>, v': View, es: seq<Expr>, ds: seq<Expr>)
    requires fixed <= more && SameFrozen(r, fixed, v, v') && AllSame(r, fixed, v, es, ds)
    ensures AllSame(r, more, v', es, ds)
  {
    hide SameTruth, SameFrozen;
    forall i | 0 <= i < |es| ensures SameTruth(r, more, v', es[i], ds[i]) {
      SameTruthLater(r, fixed, v, more, v', es[i], ds[i]);
    }
  }

  lemma CleanAllStands(fuel: nat, r: Rules, st: State, call: Call)
    requires CleanAll(fuel, r, st, call)
    ensures StandsAll(fuel, r, st, call)
  {
    hide Proposal, FixedAt, Visible, Clean, StandsFor, Acceptable;
    var proposal := Proposal(fuel, r, st, call.symbol, call.value);
    if proposal.Done? && Acceptable(r, st, proposal.value.0, proposal.value.1) {
      var (prop, undo) := proposal.value;
      forall e | e in st.reduced ensures StandsFor(r, FixedAt(r, prop), ViewOf(Conceal(prop, undo)), e) {
        CleanStands(r, FixedAt(r, prop), ViewOf(Conceal(prop, undo)), e);
      }
    }
  }

  /**
   * For formulas that are clean or implications with a settable premise and a clean conclusion, a freezing call keeps
   * them standing for the requirements, all frozen symbols being secure, if and only if no implication's guard fires:
   * an open premise over a conclusion frozen at n.
   */
  lemma ImplicationsExact(fuel: nat, r: Rules, st: State, call: Call)
    requires Steadfast(r, st) && Faithful(r, st) && MenuMatches(r, call.symbol)
    requires Linked(r) && !r.At(call.symbol).derived && call.freeze
    requires var res := SetSymbol(fuel, r, st, call.symbol, call.value, call.freeze); res.Done? && res.value.1
    requires Proposal(fuel, r, st, call.symbol, call.value).Done?
    requires var (prop, undo) := Proposal(fuel, r, st, call.symbol, call.value).value;
             var (fixed, v) := (FixedAt(r, prop), ViewOf(Conceal(prop, undo)));
             && (forall f | f in fixed :: !r.At(f).derived)
             && (forall e | e in st.reduced :: Clean(r, fixed, v, e) || Guarded(r, fixed, v, e))
    ensures Faithful(r, SetSymbol(fuel, r, st, call.symbol, call.value, call.freeze).value.0) <==>
            CleanAll(fuel, r, st, call)
  {
    hide Quiescent, Proposal, FixedAt, Visible, SetSymbol, Clean, Guarded, StandsFor, Acceptable, Faithful, Unbound,
         AllSecure, Linked, Within;
    FaithfulCallExact(fuel, r, st, call);
    AcceptedExact(fuel, r, st, call);
    var (prop, undo) := Proposal(fuel, r, st, call.symbol, call.value).value;
    var fixed, v := FixedAt(r, prop), ViewOf(Conceal(prop, undo));
    ProposalWithin(fuel, r, st, call.symbol, call.value);
    ProposalUnbound(r, st, prop, call.symbol);
    UnboundView(r, prop, undo);
    forall e | e in st.reduced ensures StandsFor(r, fixed, v, e) <==> Clean(r, fixed, v, e) {
      if Guarded(r, fixed, v, e) { GuardedStandsExact(r, fixed, v, e); } else { CleanStands(r, fixed, v, e); }
    }
  }

  // ----- runs

  /** What keeps all requirements: a step that freezes takes no faulty step, and what it freezes is secure then. */
  ghost predicate Careful(fuel: nat, r: Rules, st: State, step: Step) {
    Freezes(step) ==>
      && CleanAll(fuel, r, st, step.call)
      && var res := After(fuel, r, st, step); res.Done? ==> FreezesSecurely(r, st, res.value)
  }

  ghost predicate AllCareful(fuel: nat, r: Rules, st: State, steps: seq<Step>)
    decreases |steps|
  {
    steps != [] ==>
      && Careful(fuel, r, st, steps[0])
      && var res := After(fuel, r, st, steps[0]);
         res.Done? ==> AllCareful(fuel, r, res.value, steps[1..])
  }

  ghost predicate Trusty(r: Rules, st: State) { Consistent(r, st) && Steadfast(r, st) && Faithful(r, st) }

  lemma CarefulLosesNothing(fuel: nat, r: Rules, st: State, call: Call)
    requires Trusty(r, st) && Linked(r) && !r.At(call.symbol).derived && MenuMatches(r, call.symbol)
    requires call.freeze ==> CleanAll(fuel, r, st, call)
    ensures !Loses(fuel, r, st, call)
  {
    hide Inv, Proposal, FixedAt, Visible, Clean, Lost, Faithful, Unbound, Linked, Within, EvalFrozen;
    var proposal := Proposal(fuel, r, st, call.symbol, call.value);
    if Loses(fuel, r, st, call) {
      var (prop, undo) := proposal.value;
      var fixed, v := FixedAt(r, prop), ViewOf(Conceal(prop, undo));
      ProposalWithin(fuel, r, st, call.symbol, call.value);
      ProposalUnbound(r, st, prop, call.symbol);
      UnboundView(r, prop, undo);
      var e :| e in st.reduced && Lost(r, fixed, v, e);
      CleanKept(r, fixed, v, e);
      assert false;
    }
  }

  lemma TrustyStep(fuel: nat, r: Rules, st: State, step: Step)
    requires Trusty(r, st) && MenusMatch(r) && Linked(r) && Careful(fuel, r, st, step)
    requires step.Set? ==> !r.At(step.call.symbol).derived
    ensures var res := After(fuel, r, st, step); res.Done? ==> Trusty(r, res.value)
  {
    hide Quiescent, Holds, SetSymbol, Unbound, Linked, AllSame, CleanAll, StandsAll, Loses, FrozenSet, AllSecure,
         FreezesSecurely;
    SecureStep(fuel, r, st, step);
    match step
    case Set(call) =>
      CarefulLosesNothing(fuel, r, st, call);
      CallExact(fuel, r, st, call);
      FaithfulCallExact(fuel, r, st, call);
      if call.freeze { CleanAllStands(fuel, r, st, call); }
    case Switch(i, s) =>
      SwitchKeeps(st, i, s);
      SameFrozenSet(r, st, st.(interactive := i, suppressions := s));
  }

  lemma {:induction false} TrustyRun(fuel: nat, r: Rules, st: State, steps: seq<Step>)
    requires Trusty(r, st) && MenusMatch(r) && Linked(r) && SetsSettable(r, steps) && AllCareful(fuel, r, st, steps)
    ensures var res := Run(fuel, r, st, steps); res.Done? ==> Trusty(r, res.value)
    decreases |steps|
  {
    hide Trusty, Linked, Careful, After;
    if steps == [] {
    } else {
      assert steps[0] in steps;
      TrustyStep(fuel, r, st, steps[0]);
      var res := After(fuel, r, st, steps[0]);
      if res.Done? { TrustyRun(fuel, r, res.value, steps[1..]); }
    }
  }

  /**
   * Whole-run safety with freezing: if no freezing step takes a faulty step, and what it freezes is secure then, every
   * requirement of the rulebase holds after the run.
   */
  lemma RequirementsSurvive(fuel: nat, r: Rules, steps: seq<Step>)
    requires Holds(r, map[], r.constraints) && MenusMatch(r) && Linked(r) && SetsSettable(r, steps)
    requires AllSecure(r, Clear(r)) && AllCareful(fuel, r, Clear(r), steps)
    ensures var res := Run(fuel, r, Clear(r), steps);
            res.Done? ==> Inv(res.value) && Holds(r, ViewOf(res.value), r.constraints)
  {
    hide Holds, SetSymbol, Linked, AllCareful, Inv, SetsSettable, AllSecure;
    ClearIsConsistent(r);
    ClearIsFaithful(r);
    TrustyRun(fuel, r, Clear(r), steps);
    var res := Run(fuel, r, Clear(r), steps);
    if res.Done? {
      UnboundNow(r, res.value);
      FaithfulHolds(r, res.value);
    }
  }

  /** To begin with only messages are frozen, which are secure if they have no defaults. */
  lemma ClearIsSecure(r: Rules)
    requires forall t | r.At(t).kind.MessageKind? :: r.At(t).default.None?
    ensures AllSecure(r, Clear(r))
  {
    hide Anchored, Visible, Access;
  }

  lemma ClearIsFaithful(r: Rules)
    ensures Clear(r).reduced == r.constraints ==> Faithful(r, Clear(r))
  {
    hide Eval, FrozenSet, Visible;
  }
}
