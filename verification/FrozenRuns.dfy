/** Concrete runs in which freezing breaks a promise (contrib/cml2/cmlsystem.py, set_symbol and __commit). */
module FrozenRuns {
  import opened Options
  import opened Rulebase
  import opened PartialEval
  import opened Journal
  import opened Propagation
  import opened FrozenSymbols
  import opened Transactions
  import opened Sessions
  import opened Runs
  import opened Freezing

  // ----- setting a symbol whose value goes no further

  predicate Isolated(r: Rules, st: State, s: Id, value: Trit, sort: Sort) {
    && r.tritTie.None? && st.suppressions && Watched(st, s) == []
    && (value != N ==> r.At(s).choicegroup == [])
    && (value != N && !sort.AfterLesser? ==>
          r.At(s).menu.Some? && r.At(s).ancestors == [] && r.At(r.At(s).menu.value).ancestors == [])
    && (value != Y && !sort.AfterGreater? ==> r.At(s).dependents == [])
  }

  lemma NothingDeduced(fuel: nat, r: Rules, st: State, s: Id, source: Id)
    requires fuel >= 3 && st.suppressions && Watched(st, s) == []
    ensures Deduce(fuel, r, st, s, source) == Done(st)
  {
    hide Constrain;
    assert ConstrainAll(fuel - 2, r, st, [], source) == Done((st, 0));
    assert ConstrainRounds(fuel - 1, r, st, [], source) == Done(st);
  }

  lemma NothingForced(fuel: nat, r: Rules, st: State, s: Id, value: Trit, source: Id)
    ensures SetSiblings(fuel, r, st, [], source) == Done(st)
    ensures ForceAllAncestors(fuel, r, st, s, source, value, []) == Done(st)
    ensures ForceAllDependents(fuel, r, st, s, source, value, []) == Done(st)
  {
  }

  lemma IsolatedEffects(fuel: nat, r: Rules, st: State, s: Id, value: Trit, source: Id, sort: Sort)
    requires fuel >= 4 && Isolated(r, st, s, value, sort)
    ensures SideEffects(fuel, r, st, s, value, source, sort) == Done(st)
  {
    hide SetSiblings, ForceAllAncestors, ForceAllDependents, Deduce, RaiseTrits;
    NothingDeduced(fuel - 1, r, st, s, source);
    NothingForced(fuel - 1, r, st, s, value, source);
    NothingForced(fuel - 2, r, st, s, value, source);
    ghost var none: seq<Id> := [];
    assert none + none == none;
    assert r.At(s).Logical() ==> ForceRelatives(fuel - 1, r, st, s, value, source, sort) == Done(st);
  }

  /** The state once s is bound for the source, with the side effects still to come. */
  function BoundTo(st: State, s: Id, value: Trit, source: Id, sort: Sort): State
    requires s in st.cache
  {
    var b := Binding(st.nextId, s, value);
    st.(touched := st.touched + [s], chilled := st.chilled[s := source],
        newb := st.newb[source := [b] + ChainOf(st.newb, source)],
        cache := st.cache[s := Insert(st.cache[s], b, sort)], nextId := st.nextId + 1)
  }

  /** A setting that is made, with the side effects it has while the symbol's old bindings are concealed. */
  lemma SetAndSpread(fuel: nat, r: Rules, st: State, s: Id, value: Trit, source: Id, sort: Sort, spread: State)
    requires fuel > 0 && s in st.cache && !IsFrozen(r, st, s) && EvalSymbol(r, ViewOf(st), s) != value
    requires s !in st.chilled && !Recorded(ChainOf(st.newb, source), s, value)
    requires SideEffects(fuel - 1, r, Conceal(BoundTo(st, s, value, source, sort), {s}), s, value, source, sort) ==
             Done(spread)
    ensures SetInternal(fuel, r, st, s, value, source, sort) == Done(Reveal(spread, {s}))
  {
    hide SideEffects, EvalSymbol, Visible, ChainIds, Insert, Recorded, ChainOf;
    var touched := st.(touched := st.touched + [s]);
    assert ViewOf(touched) == ViewOf(st);
    assert Bind(touched.(chilled := touched.chilled[s := source]), s, value, source, sort) ==
           Done(BoundTo(st, s, value, source, sort));
  }

  lemma IsolatedSet(fuel: nat, r: Rules, st: State, s: Id, value: Trit, source: Id, sort: Sort)
    requires fuel >= 5 && s in st.cache && !IsFrozen(r, st, s) && EvalSymbol(r, ViewOf(st), s) != value
    requires s !in st.chilled && !Recorded(ChainOf(st.newb, source), s, value)
    requires Isolated(r, st, s, value, sort) && st.hidden !! ChainIds(st.oldb, {s})
    ensures SetInternal(fuel, r, st, s, value, source, sort) == Done(BoundTo(st, s, value, source, sort))
  {
    hide SideEffects, EvalSymbol, Visible, ChainIds, Insert, Recorded, ChainOf, SetInternal, IsFrozen;
    var bound := BoundTo(st, s, value, source, sort);
    IsolatedEffects(fuel - 1, r, Conceal(bound, {s}), s, value, source, sort);
    SetAndSpread(fuel, r, st, s, value, source, sort, Conceal(bound, {s}));
    assert Reveal(Conceal(bound, {s}), {s}) == bound;
  }

  /** What a call proposes when setting the symbol yields a state in which only that symbol has a chain. */
  lemma ProposalOf(fuel: nat, r: Rules, st: State, s: Id, value: Trit, made: State)
    requires SetInternal(fuel, r, st.(changesToFrozen := []), s, value, s, Plain) == Done(made)
    requires made.newb.Keys == {s} && r.At(s).menu.Some? && !r.At(r.At(s).menu.value).kind.ChoicesKind?
    ensures Proposal(fuel, r, st, s, value) == Done((made.(chilled := map[]), {s}))
    ensures CommitSet(r, {s}) == Done({s})
  {
    hide SetInternal;
    LoneCommitSet(r, s);
  }

  lemma LoneCommitSet(r: Rules, s: Id)
    requires r.At(s).menu.Some? && !r.At(r.At(s).menu.value).kind.ChoicesKind?
    ensures CommitSet(r, {s}) == Done({s})
  {
    assert Undone(r, s) == [s] && s in Undone(r, s);
    assert UndoneBy(r, {s}) == {s};
  }

  /** A setting that is accepted without freezing. */
  lemma PlainAccept(fuel: nat, r: Rules, st: State, s: Id, value: Trit, prop: State)
    requires Proposal(fuel, r, st, s, value) == Done((prop, {s})) && CommitSet(r, prop.newb.Keys) == Done({s})
    requires prop.changesToFrozen == [] && r.tritTie.None?
    requires Holds(r, ViewOf(Conceal(prop, {s})), prop.reduced)
    ensures SetSymbol(fuel, r, st, s, value, false) ==
            Done((BindCommit(Conceal(prop, {s}).(touched := []), {s}), true))
  {
    hide Proposal, Holds, BindCommit, CommitSet, Failures, Visible, ChainIds;
    FailuresExact(r, ViewOf(Conceal(prop, {s})), prop.reduced);
    assert prop.changesToFrozen + [] == [];
  }

  lemma NothingShown(hidden: set<nat>)
    ensures Shown([], hidden) == None
  {
  }

  lemma TopShown(b: Binding, hidden: set<nat>)
    requires b.id !in hidden
    ensures Shown([b], hidden) == Some(b.value)
  {
  }

  function Proposed(st: State, s: Id, value: Trit): State
    requires s in st.cache
  {
    BoundTo(st.(changesToFrozen := []), s, value, s, Plain).(chilled := map[])
  }

  function Settled(st: State, s: Id, value: Trit): State
    requires s in st.cache
  {
    BindCommit(Conceal(Proposed(st, s, value), {s}).(touched := []), {s})
  }

  /** An isolated setting between calls. */
  lemma IsolatedCall(fuel: nat, r: Rules, st: State, s: Id, value: Trit)
    requires fuel >= 5 && s in st.cache && !IsFrozen(r, st, s) && EvalSymbol(r, ViewOf(st), s) != value
    requires st.newb == map[] && st.chilled == map[] && st.hidden == {}
    requires Isolated(r, st, s, value, Plain)
    requires r.At(s).menu.Some? && !r.At(r.At(s).menu.value).kind.ChoicesKind?
    requires Holds(r, ViewOf(Conceal(Proposed(st, s, value), {s})), st.reduced)
    ensures SetSymbol(fuel, r, st, s, value, false) == Done((Settled(st, s, value), true))
  {
    hide SetInternal, EvalSymbol, Visible, ChainIds, Insert, Holds, SetSymbol, Proposal, BindCommit, CommitSet;
    var calm := st.(changesToFrozen := []);
    assert ViewOf(calm) == ViewOf(st);
    var made := BoundTo(calm, s, value, s, Plain);
    assert made.newb.Keys == {s};
    IsolatedSet(fuel, r, calm, s, value, s, Plain);
    ProposalOf(fuel, r, st, s, value, made);
    PlainAccept(fuel, r, st, s, value, Proposed(st, s, value));
  }

  // ----- a requirement is broken

  /** Two bools 0 and 1 in a plain menu 2, with the requirement that 0 implies 1. */
  function TwoBools(): Rules {
    RawRules([Symbol(BoolKind, false, None, Some(2), [], [], [], [], None),
              Symbol(BoolKind, false, None, Some(2), [], [], [], [], None),
              Symbol(MenuKind, false, None, None, [], [], [], [0, 1], None)],
             [0, 1, 2], None, [Bin(Implies, Ref(0), Ref(1))])
  }

  lemma TwoBoolsValues(r: Rules)
    requires r == TwoBools()
    ensures Holds(r, map[], r.constraints) && EvalSymbol(r, map[], 0) == N && EvalSymbol(r, map[], 1) == N
    ensures !Holds(r, map[0 := Y], r.constraints) && Holds(r, map[0 := Y], [One])
    ensures Simplify(r, {1}, map[], r.constraints[0]) == Done(One)
    ensures Lone(r, 0) && Lone(r, 1)
  {
    assert r.constraints[0] in r.constraints;
    assert EvalSymbol(r, map[0 := Y], 1) == N && EvalSymbol(r, map[0 := Y], 0) == Y;
    assert EvalFrozen(r, {1}, map[], Ref(0)) == Unknown && EvalFrozen(r, {1}, map[], Ref(1)) == Const(N);
  }

  lemma SimplifyOnly(r: Rules, fixed: set<Id>, v: View, formulas: seq<Expr>, e: Expr)
    requires |formulas| == 1 && Simplify(r, fixed, v, formulas[0]) == Done(e)
    ensures SimplifyAll(r, fixed, v, formulas) == Done([e])
  {
    assert SimplifyAll(r, fixed, v, formulas[1..]) == Done([]);
    assert [e] + [] == [e];
  }

  /** A journal without bindings shows nothing. */
  lemma EmptyJournal(st: State)
    requires st.newb == map[] && st.oldb == map[] && st.hidden == {} && st.chilled == map[] && st.touched == []
    requires forall s | s in st.cache :: st.cache[s] == []
    ensures Quiescent(st) && ViewOf(st) == map[]
  {
    NothingShown({});
    assert forall b :: !Stacked(st.cache, b);
  }

  /** Nor does its first binding show anything else. */
  lemma FirstBinding(st: State, s: Id, value: Trit)
    requires st.newb == map[] && st.oldb == map[] && st.hidden == {} && s in st.cache
    requires forall t | t in st.cache :: st.cache[t] == []
    ensures ViewOf(Conceal(Proposed(st, s, value), {s})) == map[s := value]
    ensures ViewOf(Settled(st, s, value)) == map[s := value]
  {
    hide Shown, Drop;
    NothingShown({});
    var b := Binding(st.nextId, s, value);
    TopShown(b, {});
    assert Insert([], b, Plain) == [b];
    var prop := Conceal(Proposed(st, s, value), {s});
    assert prop.hidden == {} && ChainIds(prop.oldb, {s}) == {};
    assert Visible(prop.cache, {}) == map[s := value];
    DropNone(prop.cache);
    assert Settled(st, s, value).cache == prop.cache && Settled(st, s, value).hidden == {};
  }

  lemma InClear(r: Rules, s: Id)
    requires s < |r.symbols|
    ensures s in Clear(r).cache
  {
  }

  /** The symbol is in a plain menu without ancestors, and nothing follows from setting it. */
  ghost predicate Lone(r: Rules, s: Id) {
    && s < |r.symbols| && r.tritTie.None? && r.At(s).menu.Some?
    && !r.At(r.At(s).menu.value).kind.ChoicesKind? && r.At(r.At(s).menu.value).ancestors == []
    && r.At(s).choicegroup == [] && r.At(s).ancestors == [] && r.At(s).dependents == []
    && !r.At(s).kind.MessageKind?
  }

  lemma NoMessages(r: Rules, st: State)
    requires forall s | 0 <= s < |r.symbols| :: !r.symbols[s].kind.MessageKind?
    ensures FrozenSet(r, st) == st.iced
  {
    assert (set s: Id | s < |r.symbols| && r.symbols[s].kind.MessageKind?) == {};
  }

  /** Freezing 1 at n drops the requirement; 0 can then be set, and the rulebase's constraint is broken. */
  lemma FreezingLosesConstraint()
    ensures var r := TwoBools();
            && Holds(r, map[], r.constraints)
            && var res := Run(9, r, Clear(r), [Set(Call(1, N, true)), Set(Call(0, Y, false))]);
               res.Done? && !Holds(r, ViewOf(res.value), r.constraints)
  {
    hide SetSymbol, Holds, EvalSymbol, Simplify, SimplifyAll, Access, Inv, Shown, FrozenSet;
    var r, st := TwoBools(), Clear(TwoBools());
    TwoBoolsValues(r);
    EmptyJournal(st);
    assert st.iced + {1} == {1};
    NoMessages(r, st.(iced := st.iced + {1}));
    SimplifyOnly(r, {1}, map[], st.reduced, One);
    IdleFreeze(9, r, st, 1, [One]);
    var st1 := st.(iced := {1}, reduced := [One], access := Access(r, [One]));
    OneUnwatched(r);
    EmptyJournal(st1);
    InClear(r, 0);
    FirstBinding(st1, 0, Y);
    IsolatedCall(9, r, st1, 0, Y);
    RunTwo(9, r, st, Set(Call(1, N, true)), Set(Call(0, Y, false)), st1, Settled(st1, 0, Y));
  }

  lemma OneUnwatched(r: Rules)
    requires |r.symbols| > 0
    ensures Access(r, [One])[0] == []
  {
    assert [One][..0] == [];
    assert Watching(r, [One], 0) == [];
  }

  lemma RunTwo(fuel: nat, r: Rules, st: State, one: Step, two: Step, st1: State, st2: State)
    requires After(fuel, r, st, one) == Done(st1) && After(fuel, r, st1, two) == Done(st2)
    ensures Run(fuel, r, st, [one, two]) == Done(st2)
  {
    hide After;
    assert [one, two][1..] == [two] && [two][1..] == [];
    assert Run(fuel, r, st2, []) == Done(st2);
    assert Run(fuel, r, st1, [two]) == Done(st2);
  }

  // ----- a formula is lost

  /** Bool 0, y by default, and bools 1 and 2 in a plain menu 3: that 0 implies 1 implies 2. */
  function ThreeBools(): Rules {
    RawRules([Symbol(BoolKind, false, Some(Lit(Y)), Some(3), [], [], [], [], None),
              Symbol(BoolKind, false, None, Some(3), [], [], [], [], None),
              Symbol(BoolKind, false, None, Some(3), [], [], [], [], None),
              Symbol(MenuKind, false, None, None, [], [], [], [0, 1, 2], None)],
             [0, 1, 2, 3], None, [Bin(Implies, Bin(Implies, Ref(0), Ref(1)), Ref(2))])
  }

  lemma ThreeBoolsValues(r: Rules)
    requires r == ThreeBools()
    ensures Holds(r, map[], r.constraints) && EvalSymbol(r, map[], 1) == N && EvalSymbol(r, map[], 2) == N
    ensures Simplify(r, {1}, map[], r.constraints[0]) == Done(r.constraints[0])
    ensures Simplify(r, {1, 2}, map[], r.constraints[0]) == Done(Lit(N))
    ensures Lone(r, 1) && Lone(r, 2)
  {
    assert EvalSymbol(r, map[], 0) == Y by { assert Eval(r, map[], Lit(Y)) == Y; }
    assert EvalFrozen(r, {1}, map[], Bin(Implies, Ref(0), Ref(1))) == Truth;
    assert EvalFrozen(r, {1, 2}, map[], Bin(Implies, Ref(0), Ref(1))) == Truth;
    assert Eval(r, map[], Bin(Implies, Ref(0), Ref(1))) == N;
  }

  /**
   * Freezing 1 and then 2 at n, their values: the open premise 0 makes the inner implication true, which makes the
   * requirement n. It holds under the defaults, and both calls are accepted.
   */
  lemma FreezingLosesFormula()
    ensures var r := ThreeBools();
            && Holds(r, map[], r.constraints) && Consistent(r, Clear(r))
            && var res := Run(9, r, Clear(r), [Set(Call(1, N, true)), Set(Call(2, N, true))]);
               && res.Done? && res.value.reduced == [Lit(N)]
               && !Holds(r, ViewOf(res.value), res.value.reduced) && Broken(res.value)
  {
    hide SetSymbol, Holds, EvalSymbol, Simplify, SimplifyAll, Access, Inv, Shown, FrozenSet;
    var r, st := ThreeBools(), Clear(ThreeBools());
    var e := r.constraints[0];
    assert r.constraints == [e];
    ThreeBoolsValues(r);
    EmptyJournal(st);
    assert st.iced + {1} == {1};
    NoMessages(r, st.(iced := st.iced + {1}));
    SimplifyOnly(r, {1}, map[], [e], e);
    IdleFreeze(9, r, st, 1, [e]);
    var st1 := st.(iced := {1}, access := Access(r, [e]));
    EmptyJournal(st1);
    assert st1.iced + {2} == {1, 2};
    NoMessages(r, st1.(iced := st1.iced + {2}));
    SimplifyOnly(r, {1, 2}, map[], [e], Lit(N));
    IdleFreeze(9, r, st1, 2, [Lit(N)]);
    var st2 := st1.(iced := {1, 2}, reduced := [Lit(N)], access := Access(r, [Lit(N)]));
    EmptyJournal(st2);
    BrokenFails(r, map[], [Lit(N)]);
    RunTwo(9, r, st, Set(Call(1, N, true)), Set(Call(2, N, true)), st1, st2);
  }

  // ----- a frozen symbol changes

  /** Bools 0 and 1 in a plain menu 2; 1 follows 0 by default. */
  function Following(): Rules {
    RawRules([Symbol(BoolKind, false, None, Some(2), [], [], [], [], None),
              Symbol(BoolKind, false, Some(Ref(0)), Some(2), [], [], [], [], None),
              Symbol(MenuKind, false, None, None, [], [], [], [0, 1], None)],
             [0, 1, 2], None, [])
  }

  /** A symbol frozen at its default value changes with what the default mentions. */
  lemma FrozenDefaultChanges()
    ensures var r := Following();
            var res := Run(9, r, Clear(r), [Set(Call(1, N, true)), Set(Call(0, Y, false))]);
            && EvalSymbol(r, ViewOf(Clear(r)), 1) == N
            && res.Done? && IsFrozen(r, res.value, 1) && EvalSymbol(r, ViewOf(res.value), 1) == Y
  {
    hide SetSymbol, Holds, EvalSymbol, SimplifyAll, Access, Inv, Shown, FrozenSet;
    var r, st := Following(), Clear(Following());
    FollowingValues(r);
    EmptyJournal(st);
    assert st.iced + {1} == {1};
    NoMessages(r, st.(iced := st.iced + {1}));
    NoFormulas(r, {1}, map[]);
    IdleFreeze(9, r, st, 1, []);
    var st1 := st.(iced := {1}, reduced := [], access := Access(r, []));
    NoneWatched(r, 0);
    EmptyJournal(st1);
    InClear(r, 0);
    FirstBinding(st1, 0, Y);
    NoFormulas(r, {1}, map[0 := Y]);
    IsolatedCall(9, r, st1, 0, Y);
    RunTwo(9, r, st, Set(Call(1, N, true)), Set(Call(0, Y, false)), st1, Settled(st1, 0, Y));
  }

  lemma FollowingValues(r: Rules)
    requires r == Following()
    ensures EvalSymbol(r, map[], 0) == N && EvalSymbol(r, map[], 1) == N && EvalSymbol(r, map[0 := Y], 1) == Y
    ensures Lone(r, 0) && Lone(r, 1)
  {
    assert EvalSymbol(r, map[], 0) == N && EvalSymbol(r, map[0 := Y], 0) == Y;
    assert Eval(r, map[], Ref(0)) == N && Eval(r, map[0 := Y], Ref(0)) == Y;
  }

  lemma NoFormulas(r: Rules, fixed: set<Id>, v: View)
    ensures Holds(r, v, []) && SimplifyAll(r, fixed, v, []) == Done([])
  {
  }

  lemma NoneWatched(r: Rules, s: Id)
    requires s < |r.symbols|
    ensures Access(r, [])[s] == []
  {
  }

  /** Bools 0 and 1 in a plain menu 2; 1 is an ancestor of 0. */
  function Depending(): Rules {
    RawRules([Symbol(BoolKind, false, None, Some(2), [1], [], [], [], None),
              Symbol(BoolKind, false, None, Some(2), [], [0], [], [], None),
              Symbol(MenuKind, false, None, None, [], [], [], [0, 1], None)],
             [0, 1, 2], None, [])
  }

  /** Setting 0 forces its ancestor 1 as well. */
  function Forced(st: State): State
    requires 0 in st.cache && 1 in st.cache
  {
    BoundTo(BoundTo(st, 0, Y, 0, Plain), 1, Y, 0, AfterGreater)
  }

  lemma ForcedRelatives(fuel: nat, r: Rules, st: State, next: State)
    requires fuel >= 3 && r == Depending()
    requires SetInternal(fuel - 2, r, st, 1, Y, 0, AfterGreater) == Done(next)
    ensures ForceRelatives(fuel, r, st, 0, Y, 0, Plain) == Done(next)
  {
    hide SetInternal;
    NothingForced(fuel - 1, r, next, 0, Y, 0);
    NothingForced(fuel - 2, r, next, 0, Y, 0);
    assert ForceAncestors(fuel - 1, r, st, 0, 0, Y, 1) == Done(next);
    assert [1] + [] == [1] && [1][1..] == [];
    assert ForceAllAncestors(fuel - 1, r, st, 0, 0, Y, [1]) == Done(next);
  }

  lemma ForcedEffects(fuel: nat, r: Rules, st: State, next: State)
    requires fuel >= 4 && r == Depending()
    requires SetInternal(fuel - 3, r, st, 1, Y, 0, AfterGreater) == Done(next)
    requires next.suppressions && Watched(next, 0) == []
    ensures SideEffects(fuel, r, st, 0, Y, 0, Plain) == Done(next)
  {
    hide SetInternal, ForceRelatives, Deduce;
    ForcedRelatives(fuel - 1, r, st, next);
    NothingForced(fuel - 1, r, st, 0, Y, 0);
    NothingDeduced(fuel - 1, r, next, 0, 0);
  }

  lemma DependingStart(r: Rules)
    requires r == Depending()
    ensures var st := Clear(r);
            && st.cache == map[0 := [], 1 := [], 2 := []] && st.reduced == []
            && Watched(st, 0) == [] && Watched(st, 1) == []
            && EvalSymbol(r, map[], 0) == N && EvalSymbol(r, map[0 := Y], 1) == N && EvalSymbol(r, map[0 := N], 1) == N
  {
  }

  /** What 0 and 1 are bound to in the two settings. */
  lemma ShownDepending(a: seq<Binding>, b: seq<Binding>, c: seq<Binding>)
    ensures Visible(map[0 := a, 1 := b, 2 := c], {}) ==
            (if a != [] then map[0 := a[0].value] else map[]) + (if b != [] then map[1 := b[0].value] else map[])
              + (if c != [] then map[2 := c[0].value] else map[])
  {
  }

  lemma ForcedCall(r: Rules, st: State)
    requires r == Depending() && st == Clear(r)
    ensures SetSymbol(20, r, st, 0, Y, false) == Done((Dependent(st), true))
  {
    hide SetInternal, SideEffects, EvalSymbol, Visible, ChainIds, Holds, SetSymbol, Proposal, BindCommit, CommitSet,
         Access;
    DependingStart(r);
    ShownDepending([], [], []);
    var zero := BoundTo(st, 0, Y, 0, Plain);
    var b0 := Binding(0, 0, Y);
    FirstInsert(b0, Plain);
    assert zero.cache == map[0 := [b0], 1 := [], 2 := []];
    ShownDepending([b0], [], []);
    assert ViewOf(zero) == map[0 := Y] && ViewOf(st) == map[];
    NoChains(st.oldb);
    assert Conceal(zero, {0}) == zero && Reveal(Forced(st), {0}) == Forced(st);
    IsolatedSet(16, r, zero, 1, Y, 0, AfterGreater);
    ForcedEffects(19, r, zero, Forced(st));
    SetAndSpread(20, r, st, 0, Y, 0, Plain, Forced(st));
    assert st.(changesToFrozen := []) == st;
    ProposalOf(20, r, st, 0, Y, Forced(st));
    var prop := Forced(st).(chilled := map[]);
    NoFormulas(r, {}, ViewOf(Conceal(prop, {0})));
    PlainAccept(20, r, st, 0, Y, prop);
    ForcedCommit(r, st);
  }

  lemma FirstInsert(b: Binding, sort: Sort)
    ensures Insert([], b, sort) == [b]
  {
  }

  lemma NoChains(m: map<Id, Chain>)
    requires m == map[]
    ensures ChainIds(m, {0}) == {}
  {
  }

  /** Both bindings hang on 0. */
  function Dependent(st: State): State {
    var (b0, b1) := (Binding(0, 0, Y), Binding(1, 1, Y));
    st.(cache := map[0 := [b0], 1 := [b1], 2 := []], oldb := map[0 := [b1, b0]], nextId := 2)
  }

  lemma ForcedCommit(r: Rules, st: State)
    requires r == Depending() && st == Clear(r)
    ensures 0 in st.cache && 1 in st.cache
    ensures var prop := Forced(st).(chilled := map[]);
            BindCommit(Conceal(prop, {0}).(touched := []), {0}) == Dependent(st)
  {
    hide Access, Drop, Insert, ChainIds, BindCommit;
    DependingStart(r);
    NoChains(st.oldb);
    var b0, b1 := Binding(0, 0, Y), Binding(1, 1, Y);
    FirstInsert(b0, Plain);
    FirstInsert(b1, AfterGreater);
    assert [b1] + [b0] == [b1, b0];
    var prop := Forced(st).(chilled := map[]);
    assert prop.cache == Dependent(st).cache;
    assert [b0] + [] == [b0];
    ChainPushed(st.newb, 0, [b0]);
    assert prop.newb == map[0 := [b1, b0]] && prop.nextId == 2 && prop.oldb == map[];
    assert Conceal(prop, {0}) == prop;
    DropNone(prop.cache);
    CommitFirst(prop.(touched := []), 0);
  }

  lemma CommitFirst(prop: State, s: Id)
    requires prop.oldb == map[] && prop.hidden == {}
    ensures BindCommit(prop, {s}) == prop.(oldb := prop.newb, newb := map[])
  {
    assert ChainIds(prop.oldb, {s}) == {};
    DropNone(prop.cache);
    assert prop.oldb - {s} + prop.newb == prop.newb;
  }

  lemma ResetStacks(b0: Binding, b1: Binding, b2: Binding)
    requires b0.id == 0 && b1.id == 1 && b2.id == 2
    ensures Drop(map[0 := [b2, b0], 1 := [b1], 2 := []], {0, 1}) == map[0 := [b2], 1 := [], 2 := []]
  {
    assert [b2, b0][1..] == [b0] && [b1][1..] == [] && [b0][1..] == [];
    assert Without([b0], {0, 1}) == [] && Without([b1], {0, 1}) == [];
    assert Without([b2, b0], {0, 1}) == [b2];
  }

  /** After 0 is set back, its first chain is gone, and with it the binding of 1. */
  lemma Reset(st: State)
    requires st == Dependent(st) && st.newb == map[] && st.hidden == {}
    ensures Settled(st, 0, N).cache == map[0 := [Binding(2, 0, N)], 1 := [], 2 := []]
    ensures Settled(st, 0, N).hidden == {}
  {
    hide Drop, ChainIds, Insert;
    var b0, b1, b2 := Binding(0, 0, Y), Binding(1, 1, Y), Binding(2, 0, N);
    PlainInsert([b0], b2);
    assert [b2] + [b0] == [b2, b0];
    var prop := Proposed(st, 0, N);
    assert prop.cache == map[0 := [b2, b0], 1 := [b1], 2 := []];
    ResetIds(st.oldb, b0, b1);
    ResetStacks(b0, b1, b2);
  }

  lemma ResetIds(m: map<Id, Chain>, b0: Binding, b1: Binding)
    requires m == map[0 := [b1, b0]] && b0.id == 0 && b1.id == 1
    ensures ChainIds(m, {0}) == {0, 1}
  {
    assert b0 in m[0] && b1 in m[0];
  }

  /** With 1 frozen. */
  function FrozenThen(r: Rules): State {
    Dependent(Clear(r)).(iced := {1}, reduced := [], access := Access(r, []))
  }

  lemma DependentView(r: Rules)
    requires r == Depending()
    ensures ViewOf(Dependent(Clear(r))) == ViewOf(FrozenThen(r)) == map[0 := Y, 1 := Y]
    ensures var st := Dependent(Clear(r)); st.reduced == [] && st.iced == {} && st.changesToFrozen == []
    ensures MenuMatches(r, 0) && r.At(1).menu == Some(2) && r.At(2).kind == MenuKind
  {
    hide Visible, Access;
    ShownDepending([Binding(0, 0, Y)], [Binding(1, 1, Y)], []);
    assert Undone(r, 0) == [0];
  }

  lemma FreezeForced(r: Rules)
    requires r == Depending()
    ensures SetSymbol(20, r, Dependent(Clear(r)), 1, Y, true) == Done((FrozenThen(r), true))
  {
    hide SetSymbol, Holds, Access, Inv, SimplifyAll, Visible, EvalSymbol, FrozenSet, Clear;
    var st1 := Dependent(Clear(r));
    ClearIsQuiescent(r);
    ForcedCall(r, Clear(r));
    DependentView(r);
    CallQuiescent(20, r, Clear(r), Call(0, Y, false));
    BoundValues(r, ViewOf(st1));
    NoFormulas(r, {1}, ViewOf(st1));
    assert st1.iced + {1} == {1};
    NoMessages(r, st1.(iced := st1.iced + {1}));
    IdleFreeze(20, r, st1, 1, []);
  }

  lemma ResetFrozen(r: Rules)
    requires r == Depending()
    ensures 0 in FrozenThen(r).cache
    ensures SetSymbol(20, r, FrozenThen(r), 0, N, false) == Done((Settled(FrozenThen(r), 0, N), true))
    ensures EvalSymbol(r, ViewOf(Settled(FrozenThen(r), 0, N)), 1) == N
  {
    hide SetSymbol, Holds, Access, Visible, EvalSymbol, Settled, Proposed;
    var st2 := FrozenThen(r);
    DependingStart(r);
    DependentView(r);
    BoundValues(r, ViewOf(st2));
    NoneWatched(r, 0);
    NoFormulas(r, {1}, ViewOf(Conceal(Proposed(st2, 0, N), {0})));
    IsolatedCall(20, r, st2, 0, N);
    Reset(st2);
    ShownDepending([Binding(2, 0, N)], [], []);
    assert ViewOf(Settled(st2, 0, N)) == map[0 := N];
  }

  lemma SetKeepsFrozen(st: State, s: Id, value: Trit)
    requires s in st.cache
    ensures Settled(st, s, value).iced == st.iced
  {
  }

  /** 0 is set and forces 1, which is frozen; 0 is set back, which undoes its side effects, and 1 changes. */
  lemma FrozenSymbolChanges()
    ensures var r := Depending();
            var two := Run(20, r, Clear(r), [Set(Call(0, Y, false)), Set(Call(1, Y, true))]);
            && two.Done? && IsFrozen(r, two.value, 1) && EvalSymbol(r, ViewOf(two.value), 1) == Y
            && var three := After(20, r, two.value, Set(Call(0, N, false)));
               three.Done? && IsFrozen(r, three.value, 1) && EvalSymbol(r, ViewOf(three.value), 1) == N
  {
    hide SetSymbol, Clear, Dependent, Settled, EvalSymbol, Visible, Access;
    var r := Depending();
    ForcedCall(r, Clear(r));
    FreezeForced(r);
    ResetFrozen(r);
    DependentView(r);
    BoundValues(r, ViewOf(FrozenThen(r)));
    SetKeepsFrozen(FrozenThen(r), 0, N);
    RunTwo(20, r, Clear(r), Set(Call(0, Y, false)), Set(Call(1, Y, true)), Dependent(Clear(r)), FrozenThen(r));
  }

  lemma BoundValues(r: Rules, v: View)
    requires v == map[0 := Y, 1 := Y]
    ensures EvalSymbol(r, v, 1) == Y && EvalSymbol(r, v, 0) == Y
  {
  }
}
