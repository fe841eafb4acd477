/**
 * Nothing is bound without a cause (contrib/cml2/cmlsystem.py, set_symbol and what it calls): the converse of what
 * Effects and Deductions say of the symbols that propagation reaches.
 */
module Causes {
  import opened Options
  import opened Rulebase
  import opened Journal
  import opened Propagation
  import opened FrozenSymbols
  import opened Transactions
  import opened Sessions
  import opened Effects

  /** A comparison of x with y, made true (or false, if `negated`), moves one operand to the other's value. */
  predicate Pulls(op: Op, negated: bool, x: Trit, y: Trit) {
    match op
    case Equal => !negated
    case Unequal => negated
    case AtMost => !negated && x.Rank() > y.Rank()
    case AtLeast => !negated && x.Rank() < y.Rank()
    case Above => negated && x.Rank() > y.Rank()
    case Below => negated && x.Rank() < y.Rank()
    case _ => false
  }

  /** Forcing e to `fixed`, at some time in the transaction that began in st0, can set s to v. */
  ghost predicate Demands(r: Rules, st0: State, source: Id, e: Expr, fixed: Trit, s: Id, v: Trit)
    decreases Bound(e), e
  {
    match e
    case Ref(t) =>
      if r.At(t).derived then r.At(t).default.Some? && Demands(r, st0, source, r.At(t).default.value, fixed, s, v)
      else t == s && fixed == v
    case Cond(g, a, b) =>
      || (Demands(r, st0, source, a, fixed, s, v) && exists mid :: Held(r, st0, mid, source, g))
      || (Demands(r, st0, source, b, fixed, s, v) && exists mid :: Failed(r, st0, mid, source, g))
    case Bin(op, a, b) =>
      if op.Implies? then
        fixed == Y && Demands(r, st0, source, b, Y, s, v) && exists mid :: Held(r, st0, mid, source, a)
      else if op.And? || op.Or? then
        && fixed == (if op.And? then Y else N)
        && (Demands(r, st0, source, a, fixed, s, v) || Demands(r, st0, source, b, fixed, s, v))
      else
        exists mid, x, y :: Compared(r, st0, mid, source, a, b, x, y) && Pulls(op, fixed == N, x, y) &&
          if Mutable(r, mid, a) then Demands(r, st0, source, a, y, s, v) else Demands(r, st0, source, b, x, s, v)
    case _ => false
  }

  ghost predicate Held(r: Rules, st0: State, mid: State, source: Id, e: Expr) {
    Within(r, st0, mid, source) && Eval(r, ViewOf(mid), e) != N
  }

  ghost predicate Failed(r: Rules, st0: State, mid: State, source: Id, e: Expr) {
    Within(r, st0, mid, source) && Eval(r, ViewOf(mid), e) == N
  }

  /** In state mid the operands have the values x and y, and one of them can be set. */
  ghost predicate Compared(r: Rules, st0: State, mid: State, source: Id, a: Expr, b: Expr, x: Trit, y: Trit) {
    && Within(r, st0, mid, source) && Comparable(r, a) && Comparable(r, b) && Mutable(r, mid, a) != Mutable(r, mid, b)
    && x == Eval(r, ViewOf(mid), a) && y == Eval(r, ViewOf(mid), b)
  }

  ghost predicate IsAbove(r: Rules, t: Id, s: Id) { exists path :: UpPath(r, UpFrom(r, t), path) && End(path) == s }

  ghost predicate IsBelow(r: Rules, t: Id, s: Id) {
    exists path :: DownPath(r, r.At(t).dependents, path) && End(path) == s
  }

  /** That t is set to w is, for the reason given, a cause to set s to v. */
  ghost predicate Because(r: Rules, st0: State, source: Id, t: Id, w: Trit, s: Id, v: Trit, why: Role) {
    match why
    case Sibling => w != N && s in r.At(t).choicegroup && v == N
    case Switched =>
      && r.tritTie == Some(t) && w == N && r.At(s).kind.TritKind? && !r.At(s).derived && v == Y
      && exists mid :: HadValue(r, st0, mid, source, s, M)
    case Ancestor(d, value) =>
      && d == t && value == w && w != N && r.At(t).Logical() && r.At(s).Logical()
      && IsAbove(r, t, s) && Raises(r, st0.tritsEnabled, t, w, s, v)
    case Dependent(g, value) =>
      && g == t && value == w && w != Y && r.At(t).Logical() && r.At(s).Logical()
      && IsBelow(r, t, s) && Lowers(r, st0.tritsEnabled, t, w, s, v)
      && exists mid, x :: HadValue(r, st0, mid, source, s, x) && w.Rank() < x.Rank()
    case Watcher(e) => e in Forced(r, st0, t) && Demands(r, st0, source, e, Y, s, v)
  }

  ghost predicate HadValue(r: Rules, st0: State, mid: State, source: Id, s: Id, x: Trit) {
    Within(r, st0, mid, source) && EvalSymbol(r, ViewOf(mid), s) == x
  }

  /** The user asked for it, or it follows from something on the chain. */
  ghost predicate Caused(r: Rules, st0: State, chain: Chain, source: Id, asked: Trit, s: Id, v: Trit) {
    (s == source && v == asked) ||
    exists t, w, why :: Recorded(chain, t, w) && Because(r, st0, source, t, w, s, v, why)
  }

  /** Every binding of the chain is caused by what was on the chain before. */
  ghost predicate Founded(r: Rules, st0: State, chain: Chain, source: Id, asked: Trit) {
    chain == [] ||
    (Caused(r, st0, chain[1..], source, asked, chain[0].symbol, chain[0].value) &&
     Founded(r, st0, chain[1..], source, asked))
  }

  /** There was a cause to set a frozen symbol to a value greater than the one it had. */
  ghost predicate Refused(r: Rules, st0: State, chain: Chain, source: Id, asked: Trit, s: Id) {
    IsFrozen(r, st0, s) &&
    exists v, mid, x :: Caused(r, st0, chain, source, asked, s, v) && HadValue(r, st0, mid, source, s, x) &&
                        x.Rank() < v.Rank()
  }

  ghost predicate Accounted(r: Rules, st0: State, st: State, source: Id, asked: Trit) {
    && Founded(r, st0, ChainOf(st.newb, source), source, asked)
    && forall c | c in st.changesToFrozen ::
         c.FrozenChange? && Refused(r, st0, ChainOf(st.newb, source), source, asked, c.symbol)
  }

  // ----- causes last

  lemma CausedOn(r: Rules, st0: State, st: State, st': State, source: Id, asked: Trit, s: Id, v: Trit)
    requires Grown(st, st') && Caused(r, st0, ChainOf(st.newb, source), source, asked, s, v)
    ensures Caused(r, st0, ChainOf(st'.newb, source), source, asked, s, v)
  {
    hide Because, Recorded, Grown;
    if !(s == source && v == asked) {
      var t, w, why :| Recorded(ChainOf(st.newb, source), t, w) && Because(r, st0, source, t, w, s, v, why);
      RecordedStays(st, st', source, t, w);
    }
  }

  lemma RefusedOn(r: Rules, st0: State, st: State, st': State, source: Id, asked: Trit, s: Id)
    requires Grown(st, st') && Refused(r, st0, ChainOf(st.newb, source), source, asked, s)
    ensures Refused(r, st0, ChainOf(st'.newb, source), source, asked, s)
  {
    hide Caused, Grown, HadValue;
    var v, mid, x :| Caused(r, st0, ChainOf(st.newb, source), source, asked, s, v) &&
                     HadValue(r, st0, mid, source, s, x) && x.Rank() < v.Rank();
    CausedOn(r, st0, st, st', source, asked, s, v);
  }

  lemma AccountedFrame(r: Rules, st0: State, st: State, st': State, source: Id, asked: Trit)
    requires Accounted(r, st0, st, source, asked)
    requires st'.newb == st.newb && st'.changesToFrozen == st.changesToFrozen
    ensures Accounted(r, st0, st', source, asked)
  {
  }

  lemma BindAccounted(r: Rules, st0: State, st: State, s: Id, value: Trit, source: Id, sort: Sort, asked: Trit)
    requires Accounted(r, st0, st, source, asked)
    requires Caused(r, st0, ChainOf(st.newb, source), source, asked, s, value)
    ensures var res := Bind(st, s, value, source, sort); res.Done? ==> Accounted(r, st0, res.value, source, asked)
  {
    hide Caused, Refused, Insert, Grown;
    var res := Bind(st, s, value, source, sort);
    if res.Done? {
      BindGrows(st, s, value, source, sort);
      var chain := ChainOf(st.newb, source);
      if !Recorded(chain, s, value) {
        var more := [Binding(st.nextId, s, value)] + chain;
        assert more[1..] == chain;
        ChainPushed(st.newb, source, more);
      }
      forall c | c in st.changesToFrozen
        ensures Refused(r, st0, ChainOf(res.value.newb, source), source, asked, c.symbol)
      {
        RefusedOn(r, st0, st, res.value, source, asked, c.symbol);
      }
    }
  }

  // ----- the recursion

  lemma {:induction false} SetInternalAccounted(fuel: nat, r: Rules, st0: State, st: State, s: Id, value: Trit,
                                                source: Id, sort: Sort, asked: Trit)
    requires Within(r, st0, st, source) && Fit(r, source, s) && Accounted(r, st0, st, source, asked)
    requires Caused(r, st0, ChainOf(st.newb, source), source, asked, s, value)
    ensures var res := SetInternal(fuel, r, st, s, value, source, sort);
            res.Done? ==> Accounted(r, st0, res.value, source, asked)
    decreases fuel, 0
  {
    hide Within, Fit, SetUnfrozen, Caused, Founded, EvalSymbol, Visible;
    if fuel == 0 { return; }
    var st1 := st.(touched := st.touched + [s]);
    SourceFacts(r, st0, st, source);
    FrameWithin(r, st0, st, st1, source);
    AccountedFrame(r, st0, st, st1, source, asked);
    var before := EvalSymbol(r, ViewOf(st1), s);
    if before == value && (s == source || IsFrozen(r, st1, s)) { return; }
    if before != value && IsFrozen(r, st1, s) {
      if before.Less(value) {
        assert HadValue(r, st0, st1, source, s, before);
        assert Refused(r, st0, ChainOf(st1.newb, source), source, asked, s);
      }
      return;
    }
    SetUnfrozenAccounted(fuel - 1, r, st0, st1, s, value, source, sort, asked);
  }

  lemma {:induction false} SetUnfrozenAccounted(fuel: nat, r: Rules, st0: State, st: State, s: Id, value: Trit,
                                                source: Id, sort: Sort, asked: Trit)
    requires Within(r, st0, st, source) && Fit(r, source, s) && !IsFrozen(r, st, s)
    requires Accounted(r, st0, st, source, asked) && Caused(r, st0, ChainOf(st.newb, source), source, asked, s, value)
    ensures var res := SetUnfrozen(fuel, r, st, s, value, source, sort);
            res.Done? ==> Accounted(r, st0, res.value, source, asked)
    decreases fuel, 1
  {
    hide Within, Fit, SideEffects, Caused, Founded, EvalSymbol, Bind, Conceal, Reveal, Accounted, Recorded, Uncovered,
         Again, Inv, Grown;
    if SetUnfrozen(fuel, r, st, s, value, source, sort).Raised? { return; }
    var chilled := st.(chilled := st.chilled[s := source]);
    SourceFacts(r, st0, st, source);
    ChillWithin(r, st0, st, s, source);
    AccountedFrame(r, st0, st, chilled, source, asked);
    BindWithin(r, st0, chilled, s, value, source, sort);
    BindAccounted(r, st0, chilled, s, value, source, sort, asked);
    BindRecords(chilled, s, value, source, sort);
    var bound := Bind(chilled, s, value, source, sort).value;
    ConcealWithin(r, st0, bound, source, s);
    var hid := Conceal(bound, {s});
    HiddenFrame(bound, s);
    AccountedFrame(r, st0, bound, hid, source, asked);
    SideEffectsAccounted(fuel, r, st0, hid, s, value, source, sort, asked);
    var res := SideEffects(fuel, r, hid, s, value, source, sort).value;
    HiddenFrame(res, s);
    AccountedFrame(r, st0, res, Reveal(res, {s}), source, asked);
  }

  lemma HiddenFrame(st: State, s: Id)
    ensures Conceal(st, {s}).newb == st.newb && Conceal(st, {s}).changesToFrozen == st.changesToFrozen
    ensures Reveal(st, {s}).newb == st.newb && Reveal(st, {s}).changesToFrozen == st.changesToFrozen
  {
  }

  lemma CausedBy(r: Rules, st0: State, st: State, source: Id, asked: Trit, t: Id, w: Trit, s: Id, v: Trit, why: Role)
    requires Recorded(ChainOf(st.newb, source), t, w) && Because(r, st0, source, t, w, s, v, why)
    ensures Caused(r, st0, ChainOf(st.newb, source), source, asked, s, v)
  {
  }

  lemma {:induction false} SideEffectsAccounted(fuel: nat, r: Rules, st0: State, st: State, s: Id, value: Trit,
                                                source: Id, sort: Sort, asked: Trit)
    requires Within(r, st0, st, source) && Fit(r, source, s) && Accounted(r, st0, st, source, asked)
    requires Recorded(ChainOf(st.newb, source), s, value)
    ensures var res := SideEffects(fuel, r, st, s, value, source, sort);
            res.Done? ==> Accounted(r, st0, res.value, source, asked)
    decreases fuel, 0
  {
    hide Within, Fit, Accounted, Grown, Recorded, ForceRelatives, Deduce, SetSiblings, RaiseTrits;
    if SideEffects(fuel, r, st, s, value, source, sort).Raised? { return; }
    LinksFit(r, source, s);
    var st1 := st;
    if value != N {
      SetSiblingsWithin(fuel - 1, r, st0, st, r.At(s).choicegroup, source);
      SetSiblingsAccounted(fuel - 1, r, st0, st, r.At(s).choicegroup, source, s, value, asked);
      st1 := SetSiblings(fuel - 1, r, st, r.At(s).choicegroup, source).value;
      RecordedStays(st, st1, source, s, value);
    }
    var st2 := st1;
    if r.tritTie == Some(s) && value == N {
      RaiseTritsWithin(fuel - 1, r, st0, st1, r.dictionary, source);
      RaiseTritsAccounted(fuel - 1, r, st0, st1, r.dictionary, source, s, asked);
      st2 := RaiseTrits(fuel - 1, r, st1, r.dictionary, source).value;
      RecordedStays(st1, st2, source, s, value);
    }
    var st3 := st2;
    if r.At(s).Logical() {
      ForceRelativesWithin(fuel - 1, r, st0, st2, s, value, source, sort);
      ForceRelativesAccounted(fuel - 1, r, st0, st2, s, value, source, sort, asked);
      st3 := ForceRelatives(fuel - 1, r, st2, s, value, source, sort).value;
      RecordedStays(st2, st3, source, s, value);
    }
    DeduceAccounted(fuel - 1, r, st0, st3, s, value, source, asked);
  }

  lemma {:induction false} SetSiblingsAccounted(fuel: nat, r: Rules, st0: State, st: State, siblings: seq<Id>,
                                                source: Id, t: Id, w: Trit, asked: Trit)
    requires Within(r, st0, st, source) && forall s | s in siblings :: Fit(r, source, s) && s in r.At(t).choicegroup
    requires Accounted(r, st0, st, source, asked) && Recorded(ChainOf(st.newb, source), t, w) && w != N
    ensures var res := SetSiblings(fuel, r, st, siblings, source);
            res.Done? ==> Accounted(r, st0, res.value, source, asked)
    decreases fuel, |siblings|
  {
    hide Within, Fit, SetInternal, Caused, Accounted, Recorded, Grown;
    if siblings == [] {
    } else {
      CausedBy(r, st0, st, source, asked, t, w, siblings[0], N, Sibling);
      SetInternalWithin(fuel, r, st0, st, siblings[0], N, source, Plain);
      SetInternalAccounted(fuel, r, st0, st, siblings[0], N, source, Plain, asked);
      var res := SetInternal(fuel, r, st, siblings[0], N, source, Plain);
      if res.Done? {
        RecordedStays(st, res.value, source, t, w);
        SetSiblingsAccounted(fuel, r, st0, res.value, siblings[1..], source, t, w, asked);
      }
    }
  }

  lemma {:induction false} RaiseTritsAccounted(fuel: nat, r: Rules, st0: State, st: State, entries: seq<Id>,
                                               source: Id, t: Id, asked: Trit)
    requires Within(r, st0, st, source) && r.tritTie == Some(t)
    requires Accounted(r, st0, st, source, asked) && Recorded(ChainOf(st.newb, source), t, N)
    ensures var res := RaiseTrits(fuel, r, st, entries, source);
            res.Done? ==> Accounted(r, st0, res.value, source, asked)
    decreases fuel, |entries|
  {
    hide Within, Fit, SetInternal, Caused, Accounted, Recorded, Grown, EvalSymbol, Visible;
    if entries == [] {
    } else {
      var s := entries[0];
      SettableFits(r, source, s);
      if r.At(s).kind.TritKind? && !r.At(s).derived && EvalSymbol(r, ViewOf(st), s) == M {
        assert HadValue(r, st0, st, source, s, M);
        CausedBy(r, st0, st, source, asked, t, N, s, Y, Switched);
        SetInternalWithin(fuel, r, st0, st, s, Y, source, Plain);
        SetInternalAccounted(fuel, r, st0, st, s, Y, source, Plain, asked);
        var res := SetInternal(fuel, r, st, s, Y, source, Plain);
        if res.Done? {
          RecordedStays(st, res.value, source, t, N);
          RaiseTritsAccounted(fuel, r, st0, res.value, entries[1..], source, t, asked);
        }
      } else {
        RaiseTritsAccounted(fuel, r, st0, st, entries[1..], source, t, asked);
      }
    }
  }

  lemma {:induction false} ForceRelativesAccounted(fuel: nat, r: Rules, st0: State, st: State, s: Id, value: Trit,
                                                   source: Id, sort: Sort, asked: Trit)
    requires Within(r, st0, st, source) && Accounted(r, st0, st, source, asked)
    requires Recorded(ChainOf(st.newb, source), s, value)
    ensures var res := ForceRelatives(fuel, r, st, s, value, source, sort);
            res.Done? ==> Accounted(r, st0, res.value, source, asked)
    decreases fuel, 0
  {
    hide Within, Fit, Accounted, Recorded, Grown, ForceAllAncestors, ForceAllDependents, IsAbove, IsBelow;
    if ForceRelatives(fuel, r, st, s, value, source, sort).Raised? { return; }
    LinksFit(r, source, s);
    var st1 := st;
    if value != N && !sort.AfterLesser? {
      LinksFit(r, source, r.At(s).menu.value);
      forall a | a in UpFrom(r, s) ensures IsAbove(r, s, a) { FirstAbove(r, s, a); }
      ForceAllAncestorsWithin(fuel - 1, r, st0, st, s, source, value, UpFrom(r, s));
      ForceAllAncestorsAccounted(fuel - 1, r, st0, st, s, source, value, UpFrom(r, s), asked);
      st1 := ForceAllAncestors(fuel - 1, r, st, s, source, value, UpFrom(r, s)).value;
      RecordedStays(st, st1, source, s, value);
    }
    if value != Y && !sort.AfterGreater? {
      forall d | d in r.At(s).dependents ensures IsBelow(r, s, d) { FirstBelow(r, s, d); }
      ForceAllDependentsAccounted(fuel - 1, r, st0, st1, s, source, value, r.At(s).dependents, asked);
    }
  }

  // ----- paths

  lemma FirstAbove(r: Rules, s: Id, a: Id)
    requires a in UpFrom(r, s)
    ensures IsAbove(r, s, a)
  {
    assert UpPath(r, UpFrom(r, s), [a]) && End([a]) == a;
  }

  lemma FirstBelow(r: Rules, s: Id, d: Id)
    requires d in r.At(s).dependents
    ensures IsBelow(r, s, d)
  {
    assert DownPath(r, r.At(s).dependents, [d]) && End([d]) == d;
  }

  lemma {:induction false} UpPathOn(r: Rules, from: seq<Id>, path: seq<Id>, a: Id)
    requires UpPath(r, from, path) && a in UpFrom(r, End(path))
    ensures UpPath(r, from, path + [a])
    decreases |path|
  {
    assert (path + [a])[1..] == path[1..] + [a] && (path + [a])[0] == path[0];
    if |path| > 1 { UpPathOn(r, UpFrom(r, path[0]), path[1..], a); }
  }

  lemma {:induction false} DownPathOn(r: Rules, from: seq<Id>, path: seq<Id>, d: Id)
    requires DownPath(r, from, path) && d in DownFrom(r, End(path))
    ensures DownPath(r, from, path + [d])
    decreases |path|
  {
    assert (path + [d])[1..] == path[1..] + [d] && (path + [d])[0] == path[0];
    if |path| > 1 { DownPathOn(r, DownFrom(r, path[0]), path[1..], d); }
  }

  lemma AboveOn(r: Rules, s: Id, a: Id)
    requires IsAbove(r, s, a)
    ensures forall b | b in UpFrom(r, a) :: IsAbove(r, s, b)
  {
    hide UpPath;
    var path :| UpPath(r, UpFrom(r, s), path) && End(path) == a;
    forall b | b in UpFrom(r, a) ensures IsAbove(r, s, b) {
      UpPathOn(r, UpFrom(r, s), path, b);
      assert End(path + [b]) == b;
    }
  }

  lemma BelowOn(r: Rules, s: Id, d: Id)
    requires IsBelow(r, s, d)
    ensures forall e | e in DownFrom(r, d) :: IsBelow(r, s, e)
  {
    hide DownPath;
    var path :| DownPath(r, r.At(s).dependents, path) && End(path) == d;
    forall e | e in DownFrom(r, d) ensures IsBelow(r, s, e) {
      DownPathOn(r, r.At(s).dependents, path, e);
      assert End(path + [e]) == e;
    }
  }

  // ----- ancestors and dependents

  lemma {:induction false} ForceAncestorsAccounted(fuel: nat, r: Rules, st0: State, st: State, dependent: Id,
                                                   source: Id, value: Trit, ancestor: Id, asked: Trit)
    requires Within(r, st0, st, source) && Fit(r, source, ancestor) && Accounted(r, st0, st, source, asked)
    requires Recorded(ChainOf(st.newb, source), dependent, value) && value != N && IsAbove(r, dependent, ancestor)
    ensures var res := ForceAncestors(fuel, r, st, dependent, source, value, ancestor);
            res.Done? ==> Accounted(r, st0, res.value, source, asked)
    decreases fuel, 0
  {
    hide Within, Fit, SetInternal, ForceAllAncestors, Caused, Accounted, Recorded, Grown, Raises, AncestorValue,
         IsAbove;
    if ForceAncestors(fuel, r, st, dependent, source, value, ancestor).Raised? { return; }
    LinksFit(r, source, ancestor);
    LinksFit(r, source, r.At(ancestor).menu.value);
    AboveOn(r, dependent, ancestor);
    var next := st;
    if r.At(dependent).Logical() && r.At(ancestor).Logical() {
      var v := AncestorValue(r, st, dependent, value, ancestor);
      RaisesIsAncestorValue(r, st, dependent, value, ancestor);
      WithinFacts(r, st0, st, source);
      CausedBy(r, st0, st, source, asked, dependent, value, ancestor, v, Ancestor(dependent, value));
      SetInternalWithin(fuel - 1, r, st0, st, ancestor, v, source, AfterGreater);
      SetInternalAccounted(fuel - 1, r, st0, st, ancestor, v, source, AfterGreater, asked);
      next := SetInternal(fuel - 1, r, st, ancestor, v, source, AfterGreater).value;
      RecordedStays(st, next, source, dependent, value);
    }
    var own, above := r.At(ancestor).ancestors, r.At(r.At(ancestor).menu.value).ancestors;
    ForceAllAncestorsWithin(fuel - 1, r, st0, next, dependent, source, value, own);
    ForceAllAncestorsAccounted(fuel - 1, r, st0, next, dependent, source, value, own, asked);
    var mid := ForceAllAncestors(fuel - 1, r, next, dependent, source, value, own).value;
    RecordedStays(next, mid, source, dependent, value);
    ForceAllAncestorsAccounted(fuel - 1, r, st0, mid, dependent, source, value, above, asked);
  }

  lemma {:induction false} ForceAllAncestorsAccounted(fuel: nat, r: Rules, st0: State, st: State, dependent: Id,
                                                      source: Id, value: Trit, ancestors: seq<Id>, asked: Trit)
    requires Within(r, st0, st, source) && Accounted(r, st0, st, source, asked)
    requires forall t | t in ancestors :: Fit(r, source, t) && IsAbove(r, dependent, t)
    requires Recorded(ChainOf(st.newb, source), dependent, value) && value != N
    ensures var res := ForceAllAncestors(fuel, r, st, dependent, source, value, ancestors);
            res.Done? ==> Accounted(r, st0, res.value, source, asked)
    decreases fuel, |ancestors|
  {
    hide Within, Fit, ForceAncestors, Accounted, Recorded, Grown, IsAbove;
    if ancestors == [] {
    } else {
      ForceAncestorsWithin(fuel, r, st0, st, dependent, source, value, ancestors[0]);
      ForceAncestorsAccounted(fuel, r, st0, st, dependent, source, value, ancestors[0], asked);
      var res := ForceAncestors(fuel, r, st, dependent, source, value, ancestors[0]);
      if res.Done? {
        RecordedStays(st, res.value, source, dependent, value);
        ForceAllAncestorsAccounted(fuel, r, st0, res.value, dependent, source, value, ancestors[1..], asked);
      }
    }
  }

  lemma {:induction false} ForceDependentsAccounted(fuel: nat, r: Rules, st0: State, st: State, guard: Id,
                                                    source: Id, value: Trit, dependent: Id, asked: Trit)
    requires Within(r, st0, st, source) && Fit(r, source, dependent) && Accounted(r, st0, st, source, asked)
    requires Recorded(ChainOf(st.newb, source), guard, value) && value != Y && IsBelow(r, guard, dependent)
    ensures var res := ForceDependents(fuel, r, st, guard, source, value, dependent);
            res.Done? ==> Accounted(r, st0, res.value, source, asked)
    decreases fuel, 0
  {
    hide Within, Fit, SetInternal, ForceAllDependents, Caused, Accounted, Recorded, Grown, Lowers, DependentValue,
         IsBelow, EvalSymbol, Visible;
    if ForceDependents(fuel, r, st, guard, source, value, dependent).Raised? { return; }
    LinksFit(r, source, dependent);
    BelowOn(r, guard, dependent);
    var next, current := st, EvalSymbol(r, ViewOf(st), dependent);
    if r.At(guard).Logical() && r.At(dependent).Logical() && value.Less(current) {
      var v := DependentValue(r, st, guard, value, dependent, current);
      LowersIsDependentValue(r, st, guard, value, dependent, current);
      WithinFacts(r, st0, st, source);
      assert HadValue(r, st0, st, source, dependent, current);
      CausedBy(r, st0, st, source, asked, guard, value, dependent, v, Dependent(guard, value));
      SetInternalWithin(fuel - 1, r, st0, st, dependent, v, source, AfterLesser);
      SetInternalAccounted(fuel - 1, r, st0, st, dependent, v, source, AfterLesser, asked);
      next := SetInternal(fuel - 1, r, st, dependent, v, source, AfterLesser).value;
      RecordedStays(st, next, source, guard, value);
    }
    ForceAllDependentsAccounted(fuel - 1, r, st0, next, guard, source, value, DownFrom(r, dependent), asked);
  }

  lemma {:induction false} ForceAllDependentsAccounted(fuel: nat, r: Rules, st0: State, st: State, guard: Id,
                                                       source: Id, value: Trit, dependents: seq<Id>, asked: Trit)
    requires Within(r, st0, st, source) && Accounted(r, st0, st, source, asked)
    requires forall t | t in dependents :: Fit(r, source, t) && IsBelow(r, guard, t)
    requires Recorded(ChainOf(st.newb, source), guard, value) && value != Y
    ensures var res := ForceAllDependents(fuel, r, st, guard, source, value, dependents);
            res.Done? ==> Accounted(r, st0, res.value, source, asked)
    decreases fuel, |dependents|
  {
    hide Within, Fit, ForceDependents, Accounted, Recorded, Grown, IsBelow;
    if dependents == [] {
    } else {
      ForceDependentsWithin(fuel, r, st0, st, guard, source, value, dependents[0]);
      ForceDependentsAccounted(fuel, r, st0, st, guard, source, value, dependents[0], asked);
      var res := ForceDependents(fuel, r, st, guard, source, value, dependents[0]);
      if res.Done? {
        RecordedStays(st, res.value, source, guard, value);
        ForceAllDependentsAccounted(fuel, r, st0, res.value, guard, source, value, dependents[1..], asked);
      }
    }
  }

  // ----- formulas

  /** Whatever forcing e to the value can set is accounted for. */
  ghost predicate Licensed(r: Rules, st0: State, st: State, source: Id, asked: Trit, e: Expr, fixed: Trit) {
    forall s, v | Demands(r, st0, source, e, fixed, s, v) ::
      Caused(r, st0, ChainOf(st.newb, source), source, asked, s, v)
  }

  lemma LicensedOn(r: Rules, st0: State, st: State, st': State, source: Id, asked: Trit, e: Expr, fixed: Trit)
    requires Licensed(r, st0, st, source, asked, e, fixed) && Grown(st, st')
    ensures Licensed(r, st0, st', source, asked, e, fixed)
  {
    hide Caused, Grown, Demands;
    forall s, v | Demands(r, st0, source, e, fixed, s, v)
      ensures Caused(r, st0, ChainOf(st'.newb, source), source, asked, s, v)
    {
      CausedOn(r, st0, st, st', source, asked, s, v);
    }
  }

  lemma {:induction false} ConstrainAccounted(fuel: nat, r: Rules, st0: State, st: State, e: Expr, source: Id,
                                              fixed: Trit, asked: Trit)
    requires Within(r, st0, st, source) && AllMentioned(r, st0, e) && Meek(r, st0, e, fixed)
    requires Accounted(r, st0, st, source, asked) && Licensed(r, st0, st, source, asked, e, fixed)
    ensures var res := Constrain(fuel, r, st, e, source, fixed);
            res.Done? ==> Accounted(r, st0, res.value.0, source, asked)
    decreases fuel, 0
  {
    hide Within, Accounted, Caused, Grown, ConstrainSymbol, Relate, EvalSymbol, Visible, AllMild, Mentioned, Mutable;
    if Constrain(fuel, r, st, e, source, fixed).Raised? { return; }
    match e
    case Ref(s) => SymbolAccounted(fuel - 1, r, st0, st, s, source, fixed, asked);
    case Cond(g, a, b) =>
      if Eval(r, ViewOf(st), g) != N {
        assert Held(r, st0, st, source, g);
        ConstrainAccounted(fuel - 1, r, st0, st, a, source, fixed, asked);
      } else {
        assert Failed(r, st0, st, source, g);
        ConstrainAccounted(fuel - 1, r, st0, st, b, source, fixed, asked);
      }
    case Bin(op, a, b) =>
      if op.Implies? && fixed == Y {
        if Eval(r, ViewOf(st), a) != N {
          assert Held(r, st0, st, source, a);
          ConstrainAccounted(fuel - 1, r, st0, st, b, source, fixed, asked);
        }
      } else if (op.And? && fixed == Y) || (op.Or? && fixed == N) {
        ConstrainWithin(fuel - 1, r, st0, st, a, source, fixed);
        ConstrainAccounted(fuel - 1, r, st0, st, a, source, fixed, asked);
        var mid := Constrain(fuel - 1, r, st, a, source, fixed).value.0;
        LicensedOn(r, st0, st, mid, source, asked, b, fixed);
        ConstrainAccounted(fuel - 1, r, st0, mid, b, source, fixed, asked);
      } else if op.Relational() && Comparable(r, a) && Comparable(r, b) {
        RelateAccounted(fuel - 1, r, st0, st, op, a, b, source, fixed, asked);
      }
    case _ =>
  }

  lemma {:induction false} SymbolAccounted(fuel: nat, r: Rules, st0: State, st: State, s: Id, source: Id,
                                           fixed: Trit, asked: Trit)
    requires Within(r, st0, st, source) && AllMentioned(r, st0, Ref(s)) && Meek(r, st0, Ref(s), fixed)
    requires Accounted(r, st0, st, source, asked) && Licensed(r, st0, st, source, asked, Ref(s), fixed)
    ensures var res := ConstrainSymbol(fuel, r, st, s, source, fixed);
            res.Done? ==> Accounted(r, st0, res.value.0, source, asked)
    decreases fuel, 0
  {
    hide Within, Fit, Accounted, Caused, Grown, Constrain, SetInternal, Bind, EvalSymbol, Visible, AllMild, Mentioned;
    SettableFits(r, source, s);
    if fuel == 0 { return; }
    if r.At(s).derived {
      if r.At(s).default.Some? {
        ConstrainAccounted(fuel - 1, r, st0, st, r.At(s).default.value, source, fixed, asked);
      }
    } else {
      assert Demands(r, st0, source, Ref(s), fixed, s, fixed);
      if EvalSymbol(r, ViewOf(st), s) == fixed {
        BindAccounted(r, st0, st, s, fixed, source, Plain, asked);
      } else {
        SetInternalAccounted(fuel - 1, r, st0, st, s, fixed, source, Plain, asked);
      }
    }
  }

  lemma {:induction false} RelateAccounted(fuel: nat, r: Rules, st0: State, st: State, op: Op, a: Expr, b: Expr,
                                           source: Id, fixed: Trit, asked: Trit)
    requires Within(r, st0, st, source) && AllMentioned(r, st0, a) && AllMentioned(r, st0, b)
    requires Meek(r, st0, a, N) && Meek(r, st0, a, Y) && Meek(r, st0, b, N) && Meek(r, st0, b, Y)
    requires op.Relational() && Comparable(r, a) && Comparable(r, b)
    requires Accounted(r, st0, st, source, asked) && Licensed(r, st0, st, source, asked, Bin(op, a, b), fixed)
    ensures var res := Relate(fuel, r, st, if fixed == N then Converse(op) else op, a, b, source);
            res.Done? ==> Accounted(r, st0, res.value.0, source, asked)
    decreases fuel, 0
  {
    hide Within, Accounted, Caused, Grown, Constrain, EvalSymbol, Visible, AllMild, Mentioned, Mutable;
    var x, y := Eval(r, ViewOf(st), a), Eval(r, ViewOf(st), b);
    if fuel == 0 || Mutable(r, st, a) == Mutable(r, st, b) { return; }
    if Pulls(op, fixed == N, x, y) {
      assert Compared(r, st0, st, source, a, b, x, y);
      if Mutable(r, st, a) {
        ConstrainAccounted(fuel - 1, r, st0, st, a, source, y, asked);
      } else {
        ConstrainAccounted(fuel - 1, r, st0, st, b, source, x, asked);
      }
    }
  }

  lemma {:induction false} ConstrainAllAccounted(fuel: nat, r: Rules, st0: State, st: State, wffs: seq<Expr>,
                                                 source: Id, asked: Trit)
    requires Within(r, st0, st, source) && Accounted(r, st0, st, source, asked)
    requires forall e | e in wffs :: AllMentioned(r, st0, e) && Meek(r, st0, e, Y)
    requires forall e | e in wffs :: Licensed(r, st0, st, source, asked, e, Y)
    ensures var res := ConstrainAll(fuel, r, st, wffs, source);
            res.Done? ==> Accounted(r, st0, res.value.0, source, asked)
    decreases fuel, |wffs|
  {
    hide Within, Accounted, Grown, Constrain, AllMentioned, AllMild, Mild, Licensed;
    if wffs == [] {
    } else {
      ConstrainWithin(fuel, r, st0, st, wffs[0], source, Y);
      ConstrainAccounted(fuel, r, st0, st, wffs[0], source, Y, asked);
      var res := Constrain(fuel, r, st, wffs[0], source, Y);
      if res.Done? {
        forall e | e in wffs ensures Licensed(r, st0, res.value.0, source, asked, e, Y) {
          LicensedOn(r, st0, st, res.value.0, source, asked, e, Y);
        }
        ConstrainAllAccounted(fuel, r, st0, res.value.0, wffs[1..], source, asked);
      }
    }
  }

  lemma {:induction false} RoundsAccounted(fuel: nat, r: Rules, st0: State, st: State, wffs: seq<Expr>,
                                           source: Id, asked: Trit)
    requires Within(r, st0, st, source) && Accounted(r, st0, st, source, asked)
    requires forall e | e in wffs :: AllMentioned(r, st0, e) && Meek(r, st0, e, Y)
    requires forall e | e in wffs :: Licensed(r, st0, st, source, asked, e, Y)
    ensures var res := ConstrainRounds(fuel, r, st, wffs, source);
            res.Done? ==> Accounted(r, st0, res.value, source, asked)
    decreases fuel, 0
  {
    hide Within, Accounted, Grown, ConstrainAll, AllMentioned, AllMild, Mild, Licensed;
    if ConstrainRounds(fuel, r, st, wffs, source).Raised? { return; }
    ConstrainAllWithin(fuel - 1, r, st0, st, wffs, source);
    ConstrainAllAccounted(fuel - 1, r, st0, st, wffs, source, asked);
    var (next, n) := ConstrainAll(fuel - 1, r, st, wffs, source).value;
    if n != 0 {
      forall e | e in wffs ensures Licensed(r, st0, next, source, asked, e, Y) {
        LicensedOn(r, st0, st, next, source, asked, e, Y);
      }
      RoundsAccounted(fuel - 1, r, st0, next, wffs, source, asked);
    }
  }

  lemma WatchedLicensed(r: Rules, st0: State, st: State, s: Id, value: Trit, source: Id, asked: Trit, e: Expr)
    requires Recorded(ChainOf(st.newb, source), s, value) && e in Forced(r, st0, s)
    ensures Licensed(r, st0, st, source, asked, e, Y)
  {
    hide Demands, Recorded, Forced;
    forall u, v | Demands(r, st0, source, e, Y, u, v)
      ensures Caused(r, st0, ChainOf(st.newb, source), source, asked, u, v)
    {
      CausedBy(r, st0, st, source, asked, s, value, u, v, Watcher(e));
    }
  }

  lemma {:induction false} DeduceAccounted(fuel: nat, r: Rules, st0: State, st: State, s: Id, value: Trit,
                                           source: Id, asked: Trit)
    requires Within(r, st0, st, source) && Accounted(r, st0, st, source, asked)
    requires Recorded(ChainOf(st.newb, source), s, value)
    ensures var res := Deduce(fuel, r, st, s, source); res.Done? ==> Accounted(r, st0, res.value, source, asked)
    decreases fuel, 0
  {
    hide Within, Accounted, Grown, Recorded, Constrain, ConstrainRounds, AllMentioned, AllMild, Mild, Licensed;
    if Deduce(fuel, r, st, s, source).Raised? { return; }
    SourceFacts(r, st0, st, source);
    DeducedMentioned(r, st0, s);
    var next := st;
    if st.interactive && !st.suppressions && r.At(s).visibility.Some? {
      var e := r.At(s).visibility.value;
      WatchedLicensed(r, st0, st, s, value, source, asked, e);
      ConstrainWithin(fuel - 1, r, st0, st, e, source, Y);
      ConstrainAccounted(fuel - 1, r, st0, st, e, source, Y, asked);
      next := Constrain(fuel - 1, r, st, e, source, Y).value.0;
      RecordedStays(st, next, source, s, value);
    }
    SourceFacts(r, st0, next, source);
    forall e | e in Watched(next, s) ensures Licensed(r, st0, next, source, asked, e, Y) {
      WatchedLicensed(r, st0, next, s, value, source, asked, e);
    }
    RoundsAccounted(fuel - 1, r, st0, next, Watched(next, s), source, asked);
  }

  // ----- whole calls

  /** All that a call proposes to bind is founded on what the user asked for, and all that it refuses is caused so. */
  lemma ProposalAccounted(fuel: nat, r: Rules, st: State, s: Id, value: Trit)
    requires Quiescent(st) && Proposal(fuel, r, st, s, value).Done?
    ensures Accounted(r, st, Proposal(fuel, r, st, s, value).value.0, s, value)
  {
    hide Within, Inv, Quiescent, Accounted, SetUnfrozen, EvalSymbol, Visible, Stacks, Family;
    var st1 := st.(changesToFrozen := [], touched := [s]);
    StartWithin(r, st, s);
    QuiescentTouched(st, s);
    assert st1 == st.(changesToFrozen := [], touched := st.touched + [s]);
    NothingYet(r, st, st1, s, value);
    var res := SetInternal(fuel, r, st.(changesToFrozen := []), s, value, s, Plain).value;
    var before := EvalSymbol(r, ViewOf(st1), s);
    if before == value {
    } else if IsFrozen(r, st1, s) {
      if before.Less(value) { AskedRefused(r, st, st1, s, value); }
    } else {
      SetUnfrozenAccounted(fuel - 1, r, st, st1, s, value, s, Plain, value);
    }
    AccountedFrame(r, st, res, res.(chilled := map[]), s, value);
  }

  lemma NothingYet(r: Rules, st: State, st1: State, s: Id, value: Trit)
    requires Quiescent(st) && st1 == st.(changesToFrozen := [], touched := [s])
    ensures Accounted(r, st, st1, s, value)
  {
    hide Inv;
  }

  lemma AskedRefused(r: Rules, st: State, st1: State, s: Id, value: Trit)
    requires Within(r, st, st1, s) && Accounted(r, st, st1, s, value) && IsFrozen(r, st, s)
    requires EvalSymbol(r, ViewOf(st1), s).Rank() < value.Rank() && st1.changesToFrozen == []
    ensures Accounted(r, st, st1.(changesToFrozen := [] + [FrozenChange(s)]), s, value)
  {
    hide Within, Founded, EvalSymbol, Visible;
    assert HadValue(r, st, st1, s, s, EvalSymbol(r, ViewOf(st1), s));
    assert Caused(r, st, ChainOf(st1.newb, s), s, value, s, value);
  }

  /** A binding that an accepted call made: asked for by the user, or caused by one that the call had made before. */
  lemma NothingWithoutCause(fuel: nat, r: Rules, st: State, s: Id, value: Trit, freeze: bool, i: nat)
    requires Quiescent(st) && !Idle(r, st, s, value)
    requires SetSymbol(fuel, r, st, s, value, freeze).Done? && SetSymbol(fuel, r, st, s, value, freeze).value.1
    requires i < |ChainOf(SetSymbol(fuel, r, st, s, value, freeze).value.0.oldb, s)|
    ensures var chain := ChainOf(SetSymbol(fuel, r, st, s, value, freeze).value.0.oldb, s);
            (chain[i].symbol == s && chain[i].value == value) ||
            exists j, why :: i < j < |chain| &&
              Because(r, st, s, chain[j].symbol, chain[j].value, chain[i].symbol, chain[i].value, why)
  {
    hide SetSymbol, Proposal, Idle, Quiescent, Because, Founded, Within;
    AcceptedChain(fuel, r, st, s, value, freeze);
    ProposalAccounted(fuel, r, st, s, value);
    FoundedAt(r, st, ChainOf(Proposal(fuel, r, st, s, value).value.0.newb, s), s, value, i);
  }

  lemma {:induction false} FoundedAt(r: Rules, st0: State, chain: Chain, source: Id, asked: Trit, i: nat)
    requires Founded(r, st0, chain, source, asked) && i < |chain|
    ensures (chain[i].symbol == source && chain[i].value == asked) ||
            exists j, why :: i < j < |chain| &&
              Because(r, st0, source, chain[j].symbol, chain[j].value, chain[i].symbol, chain[i].value, why)
  {
    hide Because;
    if i == 0 {
      if !(chain[0].symbol == source && chain[0].value == asked) {
        var t, w, why :| Recorded(chain[1..], t, w) &&
                         Because(r, st0, source, t, w, chain[0].symbol, chain[0].value, why);
        var k :| 0 <= k < |chain[1..]| && chain[1..][k].symbol == t && chain[1..][k].value == w;
        assert chain[k + 1].symbol == t && chain[k + 1].value == w;
      }
    } else {
      FoundedAt(r, st0, chain[1..], source, asked, i - 1);
      if !(chain[i].symbol == source && chain[i].value == asked) {
        var j, why :| i - 1 < j < |chain[1..]| &&
                      Because(r, st0, source, chain[1..][j].symbol, chain[1..][j].value, chain[i].symbol,
                              chain[i].value, why);
        assert chain[j + 1] == chain[1..][j];
      }
    }
  }

  /** A call is rejected only because a formula fails, or there was a cause to raise a frozen symbol. */
  lemma RejectedForCause(fuel: nat, r: Rules, st: State, s: Id, value: Trit, freeze: bool)
    requires Quiescent(st) && SetSymbol(fuel, r, st, s, value, freeze).Done?
    ensures Proposal(fuel, r, st, s, value).Done?
    ensures var (prop, undo) := Proposal(fuel, r, st, s, value).value;
            !SetSymbol(fuel, r, st, s, value, freeze).value.1 ==>
              !Holds(r, ViewOf(BindCommit(prop, undo)), st.reduced) ||
              exists t :: Refused(r, st, ChainOf(prop.newb, s), s, value, t)
  {
    hide SetSymbol, Proposal, Quiescent, Refused, Founded, Holds, BindCommit;
    DecisionIsAboutTheCommit(fuel, r, st, s, value, freeze);
    ProposalAccounted(fuel, r, st, s, value);
    var prop := Proposal(fuel, r, st, s, value).value.0;
    if prop.changesToFrozen != [] { assert prop.changesToFrozen[0] in prop.changesToFrozen; }
  }

  /** So while nothing is frozen a call is accepted exactly if the formulas hold after it. */
  lemma NothingFrozen(fuel: nat, r: Rules, st: State, s: Id, value: Trit, freeze: bool)
    requires Quiescent(st) && SetSymbol(fuel, r, st, s, value, freeze).Done? && forall t :: !IsFrozen(r, st, t)
    ensures Proposal(fuel, r, st, s, value).Done?
    ensures var (prop, undo) := Proposal(fuel, r, st, s, value).value;
            SetSymbol(fuel, r, st, s, value, freeze).value.1 <==>
            Holds(r, ViewOf(BindCommit(prop, undo)), st.reduced)
  {
    hide SetSymbol, Proposal, Quiescent, Founded, Holds, BindCommit, IsFrozen;
    DecisionIsAboutTheCommit(fuel, r, st, s, value, freeze);
    RejectedForCause(fuel, r, st, s, value, freeze);
  }
}
