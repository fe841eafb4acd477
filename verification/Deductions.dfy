/**
 * What propagation deduces from formulas (contrib/cml2/cmlsystem.py, __inner_constrain and the rounds that call it):
 * what forcing a formula sets, and what holds when the rounds end. Stated without the functions that do it.
 */
module Deductions {
  import opened Options
  import opened Rulebase
  import opened Journal
  import opened Propagation
  import opened FrozenSymbols
  import opened Transactions
  import opened Sessions
  import opened Effects

  /** A symbol that a comparison may set: settable, logical and not frozen. */
  predicate Free(r: Rules, st: State, s: Id) { !r.At(s).derived && r.At(s).Logical() && !IsFrozen(r, st, s) }

  /** An operand that a comparison takes as given: a constant, or a logical symbol that is frozen. */
  predicate Given(r: Rules, st: State, e: Expr) {
    e.Lit? || (e.Ref? && r.At(e.symbol).Logical() && IsFrozen(r, st, e.symbol))
  }

  // ----- one formula

  /** Forcing a settable symbol puts the value on the source's chain, unless the symbol is frozen at another. */
  lemma SymbolForced(fuel: nat, r: Rules, st0: State, st: State, s: Id, source: Id, fixed: Trit)
    requires Within(r, st0, st, source) && !r.At(s).derived
    ensures match Constrain(fuel, r, st, Ref(s), source, fixed)
            case Done((st', n)) =>
              var current := EvalSymbol(r, ViewOf(st), s);
              && (current == fixed || !IsFrozen(r, st, s) ==> Recorded(ChainOf(st'.newb, source), s, fixed))
              && (IsFrozen(r, st, s) && current.Rank() < fixed.Rank() ==> FrozenChange(s) in st'.changesToFrozen)
              && (n == 0 <==> current == fixed)
            case Raised(_) => true
  {
    hide Within, Fit, SetInternal, EvalSymbol, Grown, Bind, Recorded;
    if fuel < 2 { return; }
    SettableFits(r, source, s);
    if EvalSymbol(r, ViewOf(st), s) == fixed {
      BindRecords(st, s, fixed, source, Plain);
    } else {
      var res := SetInternal(fuel - 2, r, st, s, fixed, source, Plain);
      if res.Done? {
        GrownSelf(res.value);
        assert WasSet(r, st, res.value, s, fixed, source, Plain);
        SetRecorded(r, st0, st, res.value, s, fixed, source, Plain);
      }
    }
  }

  /** A comparison between a and b, made true or (if `fixed` is n) false, sets s, one of the two, to v. */
  ghost predicate Sets(r: Rules, st: State, op: Op, a: Expr, b: Expr, source: Id, fixed: Trit, s: Id, v: Trit,
                       res: Result<(State, nat)>)
  {
    var x, y := Eval(r, ViewOf(st), a).Rank(), Eval(r, ViewOf(st), b).Rank();
    match res
    case Done((st', n)) =>
      var recorded := Recorded(ChainOf(st'.newb, source), s, v);
      var untouched := st' == st && n == 0;
      if fixed != N then
        && (op.Equal? ==> recorded)
        && (op.AtMost? ==> if x <= y then untouched else recorded)
        && (op.AtLeast? ==> if x >= y then untouched else recorded)
        && (op.Below? ==> x < y && untouched)
        && (op.Above? ==> x > y && untouched)
        && (op.Unequal? ==> !(IsBool(r, a) && IsBool(r, b)) && untouched)
      else
        && (op.Unequal? ==> recorded)
        && (op.Above? ==> if x <= y then untouched else recorded)
        && (op.Below? ==> if x >= y then untouched else recorded)
        && (op.AtLeast? ==> x < y && untouched)
        && (op.AtMost? ==> x > y && untouched)
        && (op.Equal? ==> !(IsBool(r, a) && IsBool(r, b)) && untouched)
    case Raised(_) => true
  }

  /** A comparison sets its one free operand to the value of the given one, or is left alone if it holds already. */
  lemma ComparisonForced(fuel: nat, r: Rules, st0: State, st: State, op: Op, s: Id, b: Expr, source: Id, fixed: Trit)
    requires Within(r, st0, st, source) && op.Relational() && Free(r, st, s) && Given(r, st, b)
    ensures Sets(r, st, op, Ref(s), b, source, fixed, s, Eval(r, ViewOf(st), b),
                 Constrain(fuel, r, st, Bin(op, Ref(s), b), source, fixed))
    ensures Sets(r, st, op, b, Ref(s), source, fixed, s, Eval(r, ViewOf(st), b),
                 Constrain(fuel, r, st, Bin(op, b, Ref(s)), source, fixed))
  {
    hide Within, Constrain, Relate, Sets, EvalSymbol;
    if fuel < 2 {
      NoFuel(fuel, r, st, op, Ref(s), b, source, fixed, s, Eval(r, ViewOf(st), b));
      NoFuel(fuel, r, st, op, b, Ref(s), source, fixed, s, Eval(r, ViewOf(st), b));
      return;
    }
    var way, v := if fixed == N then Converse(op) else op, Eval(r, ViewOf(st), b);
    ComparisonRelates(fuel, r, st, op, Ref(s), b, source, fixed);
    ComparisonRelates(fuel, r, st, op, b, Ref(s), source, fixed);
    SymbolForced(fuel - 2, r, st0, st, s, source, v);
    RelateSets(fuel - 1, r, st, op, Ref(s), b, source, fixed, s, v);
    RelateSets(fuel - 1, r, st, op, b, Ref(s), source, fixed, s, v);
  }

  lemma NoFuel(fuel: nat, r: Rules, st: State, op: Op, a: Expr, b: Expr, source: Id, fixed: Trit, s: Id, v: Trit)
    requires fuel < 2 && op.Relational() && Comparable(r, a) && Comparable(r, b)
    ensures Sets(r, st, op, a, b, source, fixed, s, v, Constrain(fuel, r, st, Bin(op, a, b), source, fixed))
  {
    hide EvalSymbol, Visible;
  }

  lemma ComparisonRelates(fuel: nat, r: Rules, st: State, op: Op, a: Expr, b: Expr, source: Id, fixed: Trit)
    requires op.Relational() && Comparable(r, a) && Comparable(r, b) && fuel != 0
    ensures Constrain(fuel, r, st, Bin(op, a, b), source, fixed) ==
            Relate(fuel - 1, r, st, if fixed == N then Converse(op) else op, a, b, source)
  {
    hide Relate, EvalSymbol;
  }

  lemma RelateSets(fuel: nat, r: Rules, st: State, op: Op, a: Expr, b: Expr, source: Id, fixed: Trit, s: Id, v: Trit)
    requires op.Relational() && fuel != 0
    requires (a == Ref(s) && Mutable(r, st, a) && !Mutable(r, st, b) && v == Eval(r, ViewOf(st), b))
          || (b == Ref(s) && Mutable(r, st, b) && !Mutable(r, st, a) && v == Eval(r, ViewOf(st), a))
    requires var res := Constrain(fuel - 1, r, st, Ref(s), source, v);
             res.Done? ==> Recorded(ChainOf(res.value.0.newb, source), s, v)
    ensures Sets(r, st, op, a, b, source, fixed, s, v,
                 Relate(fuel, r, st, if fixed == N then Converse(op) else op, a, b, source))
  {
    hide Constrain, Recorded, Mutable, EvalSymbol, Visible, ChainOf;
  }

  /** What is forced in turn, and in which state, when e is; what cannot be read off is left alone. */
  ghost predicate PassedOn(r: Rules, st: State, st': State, e: Expr, source: Id, fixed: Trit) {
    match e
    case Ref(s) =>
      r.At(s).derived ==> r.At(s).default.Some? && WasForced(r, st, st', r.At(s).default.value, source, fixed)
    case Cond(g, a, b) =>
      if Eval(r, ViewOf(st), g) != N then WasForced(r, st, st', a, source, fixed)
      else WasForced(r, st, st', b, source, fixed)
    case Bin(op, a, b) =>
      && (op.Implies? && fixed == Y ==>
            if Eval(r, ViewOf(st), a) != N then WasForced(r, st, st', b, source, Y) else st' == st)
      && ((op.And? && fixed == Y) || (op.Or? && fixed == N) ==>
            WasForced(r, st, st', a, source, fixed) &&
            exists mid :: Grown(st, mid) && WasForced(r, mid, st', b, source, fixed))
      && ((op.And? && fixed != Y) || (op.Or? && fixed != N) || (op.Implies? && fixed != Y) ==> st' == st)
      && (op.Max? || op.Min? || op.Similar? ==> st' == st)
    case _ => false
  }

  lemma ForcingPassesOn(fuel: nat, r: Rules, st0: State, st: State, e: Expr, source: Id, fixed: Trit)
    requires Within(r, st0, st, source) && AllMentioned(r, st0, e) && Meek(r, st0, e, fixed)
    ensures match Constrain(fuel, r, st, e, source, fixed)
            case Done((st', _)) => PassedOn(r, st, st', e, source, fixed)
            case Raised(_) => true
  {
    hide Within, Grown, ConstrainSymbol, Relate, EvalSymbol, Visible, AllMild, Mentioned;
    var res := Constrain(fuel, r, st, e, source, fixed);
    if res.Raised? { return; }
    GrownSelf(res.value.0);
    match e
    case Ref(s) => if r.At(s).derived { DerivedPassesOn(fuel, r, st, s, source, fixed); }
    case Bin(op, a, b) =>
      if (op.And? && fixed == Y) || (op.Or? && fixed == N) {
        ConstrainWithin(fuel - 1, r, st0, st, a, source, fixed);
        var mid := Constrain(fuel - 1, r, st, a, source, fixed).value.0;
        ConstrainWithin(fuel - 1, r, st0, mid, b, source, fixed);
        GrownSelf(mid);
        assert WasForced(r, mid, res.value.0, b, source, fixed);
      }
    case _ =>
  }

  lemma DerivedPassesOn(fuel: nat, r: Rules, st: State, s: Id, source: Id, fixed: Trit)
    requires r.At(s).derived && Constrain(fuel, r, st, Ref(s), source, fixed).Done?
    ensures r.At(s).default.Some?
    ensures WasForced(r, st, Constrain(fuel, r, st, Ref(s), source, fixed).value.0, r.At(s).default.value, source,
                      fixed)
  {
    hide Grown, SetInternal, Bind;
    var res := Constrain(fuel, r, st, Ref(s), source, fixed);
    assert Constrain(fuel - 2, r, st, r.At(s).default.value, source, fixed) == Done((res.value.0, res.value.1));
    GrownSelf(res.value.0);
  }

  /** An equality that is forced puts the value of its given operand on the chain, as the free one's. */
  lemma EqualityForced(r: Rules, st0: State, st: State, st': State, e: Expr, s: Id, b: Expr, source: Id)
    requires Within(r, st0, st, source) && Free(r, st, s) && Given(r, st, b)
    requires e == Bin(Equal, Ref(s), b) || e == Bin(Equal, b, Ref(s))
    requires WasForced(r, st, st', e, source, Y)
    ensures Recorded(ChainOf(st'.newb, source), s, Eval(r, ViewOf(st), b))
  {
    hide Within, Constrain, Grown, EvalSymbol, Recorded;
    var fuel, next, n :| Constrain(fuel, r, st, e, source, Y) == Done((next, n)) && Grown(next, st');
    ComparisonForced(fuel, r, st0, st, Equal, s, b, source, Y);
    RecordedStays(next, st', source, s, Eval(r, ViewOf(st), b));
  }

  /** So does an implication whose premise holds. */
  lemma ImpliedEqualityForced(fuel: nat, r: Rules, st0: State, st: State, a: Expr, e: Expr, s: Id, b: Expr, source: Id)
    requires Within(r, st0, st, source) && Free(r, st, s) && Given(r, st, b)
    requires e == Bin(Equal, Ref(s), b) || e == Bin(Equal, b, Ref(s))
    ensures match Constrain(fuel, r, st, Bin(Implies, a, e), source, Y)
            case Done((st', n)) =>
              if Eval(r, ViewOf(st), a) != N then Recorded(ChainOf(st'.newb, source), s, Eval(r, ViewOf(st), b))
              else st' == st && n == 0
            case Raised(_) => true
  {
    hide Within, Grown, EvalSymbol, Visible, Recorded, Relate;
    var res := Constrain(fuel, r, st, Bin(Implies, a, e), source, Y);
    if res.Done? && Eval(r, ViewOf(st), a) != N {
      GrownSelf(res.value.0);
      assert Constrain(fuel - 1, r, st, e, source, Y) == Done((res.value.0, res.value.1));
      EqualityForced(r, st0, st, res.value.0, e, s, b, source);
    }
  }

  // ----- accepted calls

  /** During the call the symbol being set shows a binding of its own new chain. */
  lemma SourceShows(r: Rules, st: State, mid: State, st': State, s: Id, value: Trit)
    requires Quiescent(st) && Start(st, s, value).Done?
    requires Between(r, st, Start(st, s, value).value, mid, st', s)
    ensures Recorded(ChainOf(mid.newb, s), s, EvalSymbol(r, ViewOf(mid), s))
  {
    hide Within, EvalSymbol, Inv, NewIds, Stacks, Family, Owned, Shown;
    StartHides(r, st, mid, st', s, value);
    WithinFacts(r, st, mid, s);
    InvParts(mid);
    var start, b := Start(st, s, value).value, Binding(st.nextId, s, value);
    assert Owns(start.newb, s, b) && start.cache[s] == [b] + st.cache[s];
    assert Owns(mid.newb, s, b);
    var top := mid.cache[s][0];
    assert Stacked(mid.cache, top);
    NewIdsExact(mid, s, top);
    TopIsNew(r, st, start, mid, s, b);
    ChainIdsExact(mid.oldb, mid.cache, mid.nextId, {s}, top);
    hide ChainIds, Grown, Quiescent;
    assert top.symbol == s by { StackSymbols(mid, s); }
    ValueShown(r, mid, s);
    ShownTop(mid.cache[s], mid.hidden);
  }

  lemma ShownTop(cs: seq<Binding>, hidden: set<nat>)
    requires cs != [] && cs[0].id !in hidden
    ensures Shown(cs, hidden) == Some(cs[0].value)
  {
  }

  lemma TopIsNew(r: Rules, st: State, start: State, mid: State, s: Id, b: Binding)
    requires Within(r, st, mid, s) && Grown(start, mid) && s in start.cache && s in st.cache
    requires start.cache[s] == [b] + st.cache[s] && s in mid.cache && mid.cache[s] != []
    ensures mid.cache[s][0].id in NewIds(mid)
  {
    hide Inv, Owns;
    var top := mid.cache[s][0];
    if top.id !in NewIds(mid) {
      WithinFacts(r, st, mid, s);
      DropAt(mid.cache, NewIds(mid), s);
      WithoutMembers(mid.cache[s], NewIds(mid));
      assert top in st.cache[s];
      var i :| 0 <= i < |st.cache[s]| && st.cache[s][i] == top;
      assert start.cache[s][0] == b && start.cache[s][i + 1] == top;
      assert Over(start, s, b, top);
      InvParts(mid);
      NothingOverTop(mid, s, b);
      assert false;
    }
  }

  lemma NothingOverTop(st: State, s: Id, b: Binding)
    requires Stacks(st.cache, st.nextId) && s in st.cache && st.cache[s] != []
    ensures !Over(st, s, b, st.cache[s][0])
  {
  }

  /** An implied equality that s watches: if its premise holds when propagation comes to it, t is set on s's chain. */
  lemma ImplicationObeyed(fuel: nat, r: Rules, st: State, s: Id, value: Trit, freeze: bool, a: Expr, e: Expr, t: Id,
                          b: Expr)
    requires Quiescent(st) && !Idle(r, st, s, value)
    requires SetSymbol(fuel, r, st, s, value, freeze).Done? && SetSymbol(fuel, r, st, s, value, freeze).value.1
    requires Bin(Implies, a, e) in Forced(r, st, s) && Free(r, st, t) && Given(r, st, b)
    requires e == Bin(Equal, Ref(t), b) || e == Bin(Equal, b, Ref(t))
    ensures Proposal(fuel, r, st, s, value).Done? && Start(st, s, value).Done?
    ensures exists mid ::
              && Between(r, st, Start(st, s, value).value, mid, Proposal(fuel, r, st, s, value).value.0, s)
              && (Eval(r, ViewOf(mid), a) != N ==>
                    Recorded(ChainOf(SetSymbol(fuel, r, st, s, value, freeze).value.0.oldb, s), t,
                             Eval(r, ViewOf(mid), b)))
  {
    hide Within, SetSymbol, Proposal, Quiescent, Idle, EvalSymbol, Start, Recorded, Grown, UpPath, DownPath, Forced,
         Constrain, Visible;
    AcceptedChain(fuel, r, st, s, value, freeze);
    ProposalReaches(fuel, r, st, s, value);
    var prop, whole := Proposal(fuel, r, st, s, value).value.0, Bin(Implies, a, e);
    assert Seen(r, st, Start(st, s, value).value, prop, s, s, Watcher(whole));
    var mid :| Between(r, st, Start(st, s, value).value, mid, prop, s) && Met(r, mid, prop, s, s, Watcher(whole));
    SourceFacts(r, st, mid, s);
    var f, next, n :| Constrain(f, r, mid, whole, s, Y) == Done((next, n)) && Grown(next, prop);
    ImpliedEqualityForced(f, r, st, mid, a, e, t, b, s);
    if Eval(r, ViewOf(mid), a) != N { RecordedStays(next, prop, s, t, Eval(r, ViewOf(mid), b)); }
  }

  /** `require S implies T == v`: once S is set, and not taken back to n meanwhile, T is bound to v. */
  lemma RequirementSets(fuel: nat, r: Rules, st: State, s: Id, value: Trit, freeze: bool, t: Id, v: Trit)
    requires Quiescent(st) && !Idle(r, st, s, value) && value != N
    requires SetSymbol(fuel, r, st, s, value, freeze).Done? && SetSymbol(fuel, r, st, s, value, freeze).value.1
    requires Bin(Implies, Ref(s), Bin(Equal, Ref(t), Lit(v))) in Watched(st, s) && Free(r, st, t)
    requires !Recorded(ChainOf(SetSymbol(fuel, r, st, s, value, freeze).value.0.oldb, s), s, N)
    ensures Recorded(ChainOf(SetSymbol(fuel, r, st, s, value, freeze).value.0.oldb, s), t, v)
  {
    hide Within, SetSymbol, Proposal, Quiescent, Idle, EvalSymbol, Start, Recorded, Grown;
    var e := Bin(Equal, Ref(t), Lit(v));
    AcceptedChain(fuel, r, st, s, value, freeze);
    ImplicationObeyed(fuel, r, st, s, value, freeze, Ref(s), e, t, Lit(v));
    var prop := Proposal(fuel, r, st, s, value).value.0;
    var mid :| && Between(r, st, Start(st, s, value).value, mid, prop, s)
               && (Eval(r, ViewOf(mid), Ref(s)) != N ==>
                     Recorded(ChainOf(prop.newb, s), t, Eval(r, ViewOf(mid), Lit(v))));
    SourceShows(r, st, mid, prop, s, value);
    RecordedStays(mid, prop, s, s, EvalSymbol(r, ViewOf(mid), s));
  }

  // ----- what holds when the rounds end

  ghost predicate SameValues(r: Rules, v: View, w: View) {
    forall s :: EvalSymbol(r, v, s) == EvalSymbol(r, w, s)
  }

  lemma {:induction false} SameEval(r: Rules, v: View, w: View, e: Expr)
    requires SameValues(r, v, w)
    ensures Eval(r, v, e) == Eval(r, w, e)
  {
    hide EvalSymbol;
    match e
    case Not(a) => SameEval(r, v, w, a);
    case Cond(g, a, b) =>
      SameEval(r, v, w, g);
      SameEval(r, v, w, a);
      SameEval(r, v, w, b);
    case Bin(_, a, b) =>
      SameEval(r, v, w, a);
      SameEval(r, v, w, b);
    case _ =>
  }

  /** Giving a symbol the value it has changes no value. */
  lemma {:induction false} Rebound(r: Rules, v: View, s: Id, e: Expr)
    ensures Eval(r, v[s := EvalSymbol(r, v, s)], e) == Eval(r, v, e)
    decreases Bound(e), e
  {
    match e
    case Ref(t) => if t !in v && t != s && r.At(t).default.Some? { Rebound(r, v, s, r.At(t).default.value); }
    case Not(a) => Rebound(r, v, s, a);
    case Cond(g, a, b) =>
      Rebound(r, v, s, g);
      Rebound(r, v, s, a);
      Rebound(r, v, s, b);
    case Bin(_, a, b) =>
      Rebound(r, v, s, a);
      Rebound(r, v, s, b);
    case _ =>
  }

  /** No binding yet to be made is hidden. */
  ghost predicate Ahead(st: State) { forall id | id in st.hidden :: id < st.nextId }

  lemma BindAgain(r: Rules, st: State, s: Id, source: Id)
    requires Ahead(st) && !r.At(s).derived
    ensures var res := Bind(st, s, EvalSymbol(r, ViewOf(st), s), source, Plain);
            res.Done? ==> && SameValues(r, ViewOf(st), ViewOf(res.value)) && Ahead(res.value)
                          && (DerivedUnbound(r, ViewOf(st)) ==> DerivedUnbound(r, ViewOf(res.value)))
  {
    hide EvalSymbol, Shown;
    var v, value := ViewOf(st), EvalSymbol(r, ViewOf(st), s);
    if !Recorded(ChainOf(st.newb, source), s, value) && s in st.cache {
      var st' := Bind(st, s, value, source, Plain).value;
      PlainInsert(st.cache[s], Binding(st.nextId, s, value));
      ShownTop(st'.cache[s], st'.hidden);
      assert ViewOf(st') == v[s := value];
      forall t ensures EvalSymbol(r, v, t) == EvalSymbol(r, v[s := value], t) { Rebound(r, v, s, Ref(t)); }
    }
  }

  /** If nothing was set, no value has changed. */
  ghost predicate Quietly(r: Rules, st: State, res: Result<(State, nat)>) {
    match res
    case Done((st', n)) =>
      n == 0 ==> && SameValues(r, ViewOf(st), ViewOf(st')) && Ahead(st') && st'.iced == st.iced
                 && (DerivedUnbound(r, ViewOf(st)) ==> DerivedUnbound(r, ViewOf(st')))
    case Raised(_) => true
  }

  /** Forcing a formula without setting anything changes no value. */
  lemma {:induction false} QuietSame(fuel: nat, r: Rules, st: State, e: Expr, source: Id, fixed: Trit)
    requires Ahead(st)
    ensures Quietly(r, st, Constrain(fuel, r, st, e, source, fixed))
    decreases fuel
  {
    hide SameValues, EvalSymbol, Visible, Ahead, DerivedUnbound, ConstrainSymbol, Relate;
    if fuel == 0 || Constrain(fuel, r, st, e, source, fixed).Raised? { return; }
    SameSelf(r, ViewOf(st));
    match e
    case Ref(s) => SymbolQuietSame(fuel - 1, r, st, s, source, fixed);
    case Cond(g, a, b) =>
      QuietSame(fuel - 1, r, st, if Eval(r, ViewOf(st), g) != N then a else b, source, fixed);
    case Bin(op, a, b) =>
      if op.Implies? && fixed == Y {
        if Eval(r, ViewOf(st), a) != N { QuietSame(fuel - 1, r, st, b, source, fixed); }
      } else if (op.And? && fixed == Y) || (op.Or? && fixed == N) {
        QuietSame(fuel - 1, r, st, a, source, fixed);
        var mid := Constrain(fuel - 1, r, st, a, source, fixed).value;
        var last := Constrain(fuel - 1, r, mid.0, b, source, fixed).value;
        assert Constrain(fuel, r, st, e, source, fixed) == Done((last.0, mid.1 + last.1));
        if mid.1 == 0 {
          QuietSame(fuel - 1, r, mid.0, b, source, fixed);
          SameOn(r, st, mid.0, last.0);
        }
      } else if op.Relational() && Comparable(r, a) && Comparable(r, b) {
        RelateQuietSame(fuel - 1, r, st, if fixed == N then Converse(op) else op, a, b, source);
      }
    case _ =>
  }

  lemma {:induction false} SymbolQuietSame(fuel: nat, r: Rules, st: State, s: Id, source: Id, fixed: Trit)
    requires Ahead(st)
    ensures Quietly(r, st, ConstrainSymbol(fuel, r, st, s, source, fixed))
    decreases fuel
  {
    hide SameValues, EvalSymbol, Visible, Ahead, DerivedUnbound, Bind, SetInternal, Constrain;
    if fuel == 0 { return; }
    if r.At(s).derived {
      if r.At(s).default.Some? { QuietSame(fuel - 1, r, st, r.At(s).default.value, source, fixed); }
    } else if EvalSymbol(r, ViewOf(st), s) == fixed {
      BindAgain(r, st, s, source);
      BindIced(st, s, fixed, source);
    }
  }

  lemma {:induction false} RelateQuietSame(fuel: nat, r: Rules, st: State, op: Op, a: Expr, b: Expr, source: Id)
    requires Ahead(st)
    ensures Quietly(r, st, Relate(fuel, r, st, op, a, b, source))
    decreases fuel
  {
    hide SameValues, EvalSymbol, Visible, Ahead, DerivedUnbound, Constrain, Mutable;
    if fuel == 0 { return; }
    SameSelf(r, ViewOf(st));
    QuietSame(fuel - 1, r, st, a, source, Eval(r, ViewOf(st), b));
    QuietSame(fuel - 1, r, st, b, source, Eval(r, ViewOf(st), a));
  }

  lemma SameSelf(r: Rules, v: View)
    ensures SameValues(r, v, v)
  {
  }

  lemma BindIced(st: State, s: Id, value: Trit, source: Id)
    ensures var res := Bind(st, s, value, source, Plain); res.Done? ==> res.value.iced == st.iced
  {
  }

  lemma SameOn(r: Rules, a: State, b: State, c: State)
    requires SameValues(r, ViewOf(a), ViewOf(b))
    ensures SameValues(r, ViewOf(b), ViewOf(c)) ==> SameValues(r, ViewOf(a), ViewOf(c))
  {
    hide EvalSymbol, Visible;
  }

  /** A formula whose demand propagation can always meet: what it sets, it may set, and no step is left out. */
  predicate Decisive(r: Rules, st: State, e: Expr, wanted: bool)
    decreases Bound(e), e
  {
    match e
    case Ref(s) => r.At(s).derived ==> r.At(s).default.Some? && Decisive(r, st, r.At(s).default.value, wanted)
    case Cond(_, a, b) => Decisive(r, st, a, wanted) && Decisive(r, st, b, wanted)
    case Bin(op, a, b) =>
      if op.Implies? then wanted && Decisive(r, st, b, true)
      else if op.And? then wanted && Decisive(r, st, a, true) && Decisive(r, st, b, true)
      else if op.Or? then !wanted && Decisive(r, st, a, false) && Decisive(r, st, b, false)
      else
        && op.Relational() && !(if wanted then op.Unequal? else op.Equal?)
        && ((a.Ref? && Free(r, st, a.symbol) && Given(r, st, b)) ||
            (b.Ref? && Free(r, st, b.symbol) && Given(r, st, a)))
    case _ => false
  }

  lemma {:induction false} DecisiveFrame(r: Rules, st: State, st': State, e: Expr, wanted: bool)
    requires st'.iced == st.iced
    ensures Decisive(r, st, e, wanted) == Decisive(r, st', e, wanted)
    decreases Bound(e), e
  {
    match e
    case Ref(s) =>
      if r.At(s).derived && r.At(s).default.Some? { DecisiveFrame(r, st, st', r.At(s).default.value, wanted); }
    case Cond(_, a, b) =>
      DecisiveFrame(r, st, st', a, wanted);
      DecisiveFrame(r, st, st', b, wanted);
    case Bin(op, a, b) =>
      if op.Implies? {
        DecisiveFrame(r, st, st', b, true);
      } else if op.And? || op.Or? {
        DecisiveFrame(r, st, st', a, wanted);
        DecisiveFrame(r, st, st', b, wanted);
      }
    case _ =>
  }

  lemma SymbolQuiet(fuel: nat, r: Rules, st: State, s: Id, source: Id, fixed: Trit)
    requires !r.At(s).derived && EvalSymbol(r, ViewOf(st), s) != fixed
    ensures var res := Constrain(fuel, r, st, Ref(s), source, fixed); res.Done? ==> res.value.1 == 1
  {
    hide EvalSymbol, Visible, SetInternal;
  }

  lemma ComparisonQuiet(fuel: nat, r: Rules, st: State, op: Op, a: Expr, b: Expr, source: Id, wanted: bool)
    requires op.Relational() && Decisive(r, st, Bin(op, a, b), wanted)
    requires var res := Constrain(fuel, r, st, Bin(op, a, b), source, if wanted then Y else N);
             res.Done? && res.value.1 == 0
    ensures (Eval(r, ViewOf(st), Bin(op, a, b)) != N) == wanted
  {
    hide Constrain, EvalSymbol, Visible, Relate;
    var x, y, fixed := Eval(r, ViewOf(st), a), Eval(r, ViewOf(st), b), if wanted then Y else N;
    if fuel < 2 {
      NoFuelAtAll(fuel, r, st, op, a, b, source, fixed);
    } else {
      ComparisonRelates(fuel, r, st, op, a, b, source, fixed);
      if Mutable(r, st, a) && x != y { SymbolQuiet(fuel - 2, r, st, a.symbol, source, y); }
      if Mutable(r, st, b) && x != y { SymbolQuiet(fuel - 2, r, st, b.symbol, source, x); }
      RelateQuiet(fuel - 1, r, st, op, a, b, source, wanted);
    }
  }

  lemma NoFuelAtAll(fuel: nat, r: Rules, st: State, op: Op, a: Expr, b: Expr, source: Id, fixed: Trit)
    requires fuel < 2 && op.Relational() && Comparable(r, a) && Comparable(r, b)
    ensures Constrain(fuel, r, st, Bin(op, a, b), source, fixed).Raised?
  {
    hide EvalSymbol, Visible;
  }

  lemma RelateQuiet(fuel: nat, r: Rules, st: State, op: Op, a: Expr, b: Expr, source: Id, wanted: bool)
    requires op.Relational() && !(if wanted then op.Unequal? else op.Equal?) && fuel != 0
    requires Mutable(r, st, a) != Mutable(r, st, b)
    requires var x, y := Eval(r, ViewOf(st), a), Eval(r, ViewOf(st), b);
             x != y ==>
               var res := if Mutable(r, st, a) then Constrain(fuel - 1, r, st, a, source, y)
                          else Constrain(fuel - 1, r, st, b, source, x);
               res.Done? ==> res.value.1 == 1
    requires var res := Relate(fuel, r, st, if wanted then op else Converse(op), a, b, source);
             res.Done? && res.value.1 == 0
    ensures (Eval(r, ViewOf(st), Bin(op, a, b)) != N) == wanted
  {
    hide Constrain, EvalSymbol, Visible, Mutable;
  }

  /** If forcing a decisive formula sets nothing, the formula has the truth value demanded. */
  lemma {:induction false} QuietHolds(fuel: nat, r: Rules, st: State, e: Expr, source: Id, wanted: bool)
    requires Ahead(st) && DerivedUnbound(r, ViewOf(st)) && Decisive(r, st, e, wanted)
    requires var res := Constrain(fuel, r, st, e, source, if wanted then Y else N); res.Done? && res.value.1 == 0
    ensures (Eval(r, ViewOf(st), e) != N) == wanted
    decreases Bound(e), e
  {
    hide EvalSymbol, Visible, Ahead, DerivedUnbound, ConstrainSymbol, Relate, SameValues;
    var fixed := if wanted then Y else N;
    match e
    case Ref(s) =>
      if r.At(s).derived {
        DerivedQuiet(fuel, r, st, s, source, fixed);
        QuietHolds(fuel - 2, r, st, r.At(s).default.value, source, wanted);
        DerivedTruth(r, ViewOf(st), s);
      } else if EvalSymbol(r, ViewOf(st), s) != fixed {
        SymbolQuiet(fuel, r, st, s, source, fixed);
      }
    case Cond(g, a, b) =>
      QuietHolds(fuel - 1, r, st, if Eval(r, ViewOf(st), g) != N then a else b, source, wanted);
    case Bin(op, a, b) =>
      if op.Implies? {
        if Eval(r, ViewOf(st), a) != N { QuietHolds(fuel - 1, r, st, b, source, true); }
      } else if op.And? || op.Or? {
        var (mid, n) := Constrain(fuel - 1, r, st, a, source, fixed).value;
        var (last, k) := Constrain(fuel - 1, r, mid, b, source, fixed).value;
        assert Constrain(fuel, r, st, e, source, fixed) == Done((last, n + k));
        QuietHolds(fuel - 1, r, st, a, source, wanted);
        QuietSame(fuel - 1, r, st, a, source, fixed);
        DecisiveFrame(r, st, mid, b, wanted);
        QuietHolds(fuel - 1, r, mid, b, source, wanted);
        SameEval(r, ViewOf(st), ViewOf(mid), b);
      } else {
        ComparisonQuiet(fuel, r, st, op, a, b, source, wanted);
      }
    case _ =>
  }

  lemma DerivedQuiet(fuel: nat, r: Rules, st: State, s: Id, source: Id, fixed: Trit)
    requires r.At(s).derived && Constrain(fuel, r, st, Ref(s), source, fixed).Done?
    ensures fuel >= 2 && r.At(s).default.Some?
    ensures Constrain(fuel, r, st, Ref(s), source, fixed) ==
            Constrain(fuel - 2, r, st, r.At(s).default.value, source, fixed)
  {
    hide EvalSymbol, SetInternal, Bind;
  }

  lemma DerivedTruth(r: Rules, v: View, s: Id)
    requires DerivedUnbound(r, v) && r.At(s).derived && r.At(s).default.Some?
    ensures (EvalSymbol(r, v, s) != N) == (Eval(r, v, r.At(s).default.value) != N)
  {
  }

  // ----- the rounds of one setting

  lemma {:induction false} AllQuiet(fuel: nat, r: Rules, st: State, wffs: seq<Expr>, source: Id)
    requires Ahead(st) && DerivedUnbound(r, ViewOf(st))
    requires var res := ConstrainAll(fuel, r, st, wffs, source); res.Done? && res.value.1 == 0
    ensures Quietly(r, st, ConstrainAll(fuel, r, st, wffs, source))
    ensures forall e | e in wffs && Decisive(r, st, e, true) :: Eval(r, ViewOf(st), e) != N
    decreases |wffs|
  {
    hide EvalSymbol, Visible, Ahead, DerivedUnbound, Constrain, SameValues, Decisive;
    SameSelf(r, ViewOf(st));
    if wffs == [] {
    } else {
      var (next, n) := Constrain(fuel, r, st, wffs[0], source, Y).value;
      var (last, k) := ConstrainAll(fuel, r, next, wffs[1..], source).value;
      assert ConstrainAll(fuel, r, st, wffs, source) == Done((last, n + k));
      QuietSame(fuel, r, st, wffs[0], source, Y);
      AllQuiet(fuel, r, next, wffs[1..], source);
      SameOn(r, st, next, last);
      if Decisive(r, st, wffs[0], true) { QuietHolds(fuel, r, st, wffs[0], source, true); }
      forall e | e in wffs[1..] && Decisive(r, st, e, true) ensures Eval(r, ViewOf(st), e) != N {
        DecisiveFrame(r, st, next, e, true);
        SameEval(r, ViewOf(st), ViewOf(next), e);
      }
    }
  }

  /** The rounds end only when every decisive formula among those gone through holds. */
  lemma {:induction false} RoundsSettle(fuel: nat, r: Rules, st0: State, st: State, wffs: seq<Expr>, source: Id)
    requires Within(r, st0, st, source) && Orderly(r, st0, source) && forall id | id in st.hidden :: id < st0.nextId
    requires forall e | e in wffs :: AllMentioned(r, st0, e) && Meek(r, st0, e, Y)
    ensures match ConstrainRounds(fuel, r, st, wffs, source)
            case Done(st') => forall e | e in wffs && Decisive(r, st', e, true) :: Eval(r, ViewOf(st'), e) != N
            case Raised(_) => true
    decreases fuel
  {
    hide Within, Orderly, EvalSymbol, Visible, DerivedUnbound, ConstrainAll, SameValues, Decisive, AllMentioned,
         AllMild, Mild, Grown;
    var rounds := ConstrainRounds(fuel, r, st, wffs, source);
    if rounds.Raised? { return; }
    ConstrainAllWithin(fuel - 1, r, st0, st, wffs, source);
    var (next, n) := ConstrainAll(fuel - 1, r, st, wffs, source).value;
    if n != 0 {
      RoundsSettle(fuel - 1, r, st0, next, wffs, source);
    } else {
      WithinUnbound(r, st0, st, source);
      WithinFacts(r, st0, st, source);
      AllQuiet(fuel - 1, r, st, wffs, source);
      forall e | e in wffs && Decisive(r, next, e, true) ensures Eval(r, ViewOf(next), e) != N {
        DecisiveFrame(r, st, next, e, true);
        SameEval(r, ViewOf(st), ViewOf(next), e);
      }
    }
  }

  /** So when the side effects of a setting are worked out, every decisive formula its symbol watches holds. */
  lemma SideEffectsSettle(fuel: nat, r: Rules, st0: State, st: State, s: Id, value: Trit, source: Id, sort: Sort)
    requires Within(r, st0, st, source) && Orderly(r, st0, source) && forall id | id in st.hidden :: id < st0.nextId
    ensures match SideEffects(fuel, r, st, s, value, source, sort)
            case Done(st') =>
              forall e | e in Watched(st0, s) && Decisive(r, st0, e, true) :: Eval(r, ViewOf(st'), e) != N
            case Raised(_) => true
  {
    hide Within, Fit, Orderly, Grown, ForceRelatives, Deduce, SetSiblings, RaiseTrits, EvalSymbol, Visible, Decisive,
         Watched;
    var all := SideEffects(fuel, r, st, s, value, source, sort);
    if all.Raised? { return; }
    var st1 := if value != N then SetSiblings(fuel - 1, r, st, r.At(s).choicegroup, source).value else st;
    var tied := r.tritTie == Some(s) && value == N;
    var st2 := if tied then RaiseTrits(fuel - 1, r, st1, r.dictionary, source).value else st1;
    var st3 := if r.At(s).Logical() then ForceRelatives(fuel - 1, r, st2, s, value, source, sort).value else st2;
    LinksFit(r, source, s);
    if value != N { SetSiblingsWithin(fuel - 1, r, st0, st, r.At(s).choicegroup, source); }
    if tied { RaiseTritsWithin(fuel - 1, r, st0, st1, r.dictionary, source); }
    if r.At(s).Logical() { ForceRelativesWithin(fuel - 1, r, st0, st2, s, value, source, sort); }
    DeduceSettles(fuel - 1, r, st0, st3, s, source);
  }

  lemma DeduceSettles(fuel: nat, r: Rules, st0: State, st: State, s: Id, source: Id)
    requires Within(r, st0, st, source) && Orderly(r, st0, source) && forall id | id in st.hidden :: id < st0.nextId
    ensures match Deduce(fuel, r, st, s, source)
            case Done(st') =>
              forall e | e in Watched(st0, s) && Decisive(r, st0, e, true) :: Eval(r, ViewOf(st'), e) != N
            case Raised(_) => true
  {
    hide Within, Grown, Orderly, Constrain, ConstrainRounds, AllMentioned, AllMild, Mild, EvalSymbol, Visible,
         Decisive;
    var all := Deduce(fuel, r, st, s, source);
    if all.Raised? { return; }
    SourceFacts(r, st0, st, source);
    DeducedMentioned(r, st0, s);
    var next, looks := st, st.interactive && !st.suppressions && r.At(s).visibility.Some?;
    if looks {
      ConstrainWithin(fuel - 1, r, st0, st, r.At(s).visibility.value, source, Y);
      next := Constrain(fuel - 1, r, st, r.At(s).visibility.value, source, Y).value.0;
    }
    SourceFacts(r, st0, next, source);
    ConstrainRoundsWithin(fuel - 1, r, st0, next, Watched(next, s), source);
    RoundsSettle(fuel - 1, r, st0, next, Watched(next, s), source);
    SourceFacts(r, st0, all.value, source);
    forall e | e in Watched(st0, s) && Decisive(r, st0, e, true) ensures Eval(r, ViewOf(all.value), e) != N {
      DecisiveFrame(r, st0, all.value, e, true);
    }
  }
}
