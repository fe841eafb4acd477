/**
 * What a setting does to other symbols (contrib/cml2/cmlsystem.py, set_symbol and __dep_force_*): every sibling,
 * trit, ancestor and dependent it reaches is set, and what is set stays on the chain of the symbol the user set. The
 * values are tables here, independent of the functions that propagation computes them with.
 */
module Effects {
  import opened Options
  import opened Rulebase
  import opened Journal
  import opened Propagation
  import opened FrozenSymbols
  import opened Transactions
  import opened Sessions

  /** What goes up from a symbol: its own ancestors and those of its menu. */
  function UpFrom(r: Rules, s: Id): seq<Id> {
    r.At(s).ancestors + match r.At(s).menu { case Some(m) => r.At(m).ancestors case None => [] }
  }

  /** What goes down from a symbol: a menu's items, and if it has none, the dependents. */
  function DownFrom(r: Rules, s: Id): seq<Id> { if r.At(s).items != [] then r.At(s).items else r.At(s).dependents }

  ghost predicate UpPath(r: Rules, from: seq<Id>, path: seq<Id>): (yes: bool)
    ensures yes ==> path != []
    decreases |path|
  {
    path != [] && path[0] in from && (|path| > 1 ==> UpPath(r, UpFrom(r, path[0]), path[1..]))
  }

  ghost predicate DownPath(r: Rules, from: seq<Id>, path: seq<Id>): (yes: bool)
    ensures yes ==> path != []
    decreases |path|
  {
    path != [] && path[0] in from && (|path| > 1 ==> DownPath(r, DownFrom(r, path[0]), path[1..]))
  }

  function End(path: seq<Id>): Id
    requires path != []
  {
    path[|path| - 1]
  }

  /** The value v to which an ancestor goes up for a dependent that is set to `value`. */
  ghost predicate Raises(r: Rules, trits: bool, dependent: Id, value: Trit, ancestor: Id, v: Trit) {
    && (r.At(dependent).kind == r.At(ancestor).kind ==> v == value)
    && (r.At(dependent).kind.TritKind? && r.At(ancestor).kind.BoolKind? ==> v == Y)
    && (r.At(dependent).kind.BoolKind? && r.At(ancestor).kind.TritKind? ==> v == if trits then M else Y)
  }

  /** The value v to which a dependent goes down when its guard is set to `value`; a bool under a trit at m stays. */
  ghost predicate Lowers(r: Rules, trits: bool, guard: Id, value: Trit, dependent: Id, v: Trit) {
    && (r.At(guard).kind == r.At(dependent).kind ==> v == value)
    && (r.At(guard).kind.BoolKind? && r.At(dependent).kind.TritKind? ==> v == if trits then value else N)
    && (r.At(guard).kind.TritKind? && r.At(dependent).kind.BoolKind? ==> v == if trits && value == M then Y else N)
  }

  // ----- one setting

  /** On the way from mid to st', s is set to the value. */
  ghost predicate WasSet(r: Rules, mid: State, st': State, s: Id, value: Trit, source: Id, sort: Sort) {
    exists fuel, next :: SetInternal(fuel, r, mid, s, value, source, sort) == Done(next) && Grown(next, st')
  }

  lemma RecordedStays(st: State, st': State, source: Id, s: Id, value: Trit)
    requires Grown(st, st') && Recorded(ChainOf(st.newb, source), s, value)
    ensures Recorded(ChainOf(st'.newb, source), s, value)
  {
    var b :| b in ChainOf(st.newb, source) && b.symbol == s && b.value == value;
    assert Owns(st.newb, source, b);
    assert Owns(st'.newb, source, b);
  }

  /** What remains to the end of the first thing that setting an unfrozen symbol does: it binds the symbol. */
  lemma SetBinds(fuel: nat, r: Rules, st0: State, st: State, s: Id, value: Trit, source: Id, sort: Sort)
    requires Within(r, st0, st, source) && Fit(r, source, s) && !IsFrozen(r, st, s)
    requires s != source || EvalSymbol(r, ViewOf(st), s) != value
    requires SetInternal(fuel, r, st, s, value, source, sort).Done?
    ensures Bind(st, s, value, source, sort).Done?
    ensures Grown(Bind(st, s, value, source, sort).value, SetInternal(fuel, r, st, s, value, source, sort).value)
  {
    hide Within, Fit, Grown, EvalSymbol, Bind, SetUnfrozen;
    var st1 := st.(touched := st.touched + [s]);
    var chilled := st1.(chilled := st1.chilled[s := source]);
    SourceFacts(r, st0, st, source);
    FrameWithin(r, st0, st, st1, source);
    SetUnfrozenWithin(fuel - 1, r, st0, st1, s, value, source, sort);
    BindUntouched(st, chilled, s, value, source, sort);
    var st' := SetInternal(fuel, r, st, s, value, source, sort).value;
    var bound := Bind(chilled, s, value, source, sort).value;
    var begun := Bind(st, s, value, source, sort).value;
    BindTouches(st, s, value, source, sort);
    GrownFrame(begun, bound);
    GrownOn(begun, bound, st');
  }

  lemma BindTouches(st: State, s: Id, value: Trit, source: Id, sort: Sort)
    ensures var bound := Bind(st, s, value, source, sort); bound.Done? ==> bound.value.touched == st.touched
  {
  }

  lemma BindUntouched(st: State, st': State, s: Id, value: Trit, source: Id, sort: Sort)
    requires st' == st.(touched := st'.touched, chilled := st'.chilled)
    ensures var b, b' := Bind(st, s, value, source, sort), Bind(st', s, value, source, sort);
            && b.Raised? == b'.Raised?
            && (b.Done? ==> b'.value == b.value.(touched := st'.touched, chilled := st'.chilled))
  {
  }


  /** Who is set stays on the source's chain; a frozen symbol that was to be raised stays among the refused changes. */
  lemma SetRecorded(r: Rules, st0: State, mid: State, st': State, s: Id, value: Trit, source: Id, sort: Sort)
    requires Within(r, st0, mid, source) && Fit(r, source, s) && WasSet(r, mid, st', s, value, source, sort)
    ensures var current := EvalSymbol(r, ViewOf(mid), s);
            && (IsFrozen(r, mid, s) && current.Rank() < value.Rank() ==> FrozenChange(s) in st'.changesToFrozen)
            && (!IsFrozen(r, mid, s) && (s != source || current != value) ==>
                  Recorded(ChainOf(st'.newb, source), s, value))
  {
    hide Within, Fit, EvalSymbol, SetUnfrozen, Owns, Over;
    var fuel, next :| SetInternal(fuel, r, mid, s, value, source, sort) == Done(next) && Grown(next, st');
    if !IsFrozen(r, mid, s) {
      if s != source || EvalSymbol(r, ViewOf(mid), s) != value {
        hide Grown;
        SetBinds(fuel, r, st0, mid, s, value, source, sort);
        hide SetInternal;
        var bound := Bind(mid, s, value, source, sort).value;
        BindRecords(mid, s, value, source, sort);
        RecordedStays(bound, next, source, s, value);
        RecordedStays(next, st', source, s, value);
      }
    } else if EvalSymbol(r, ViewOf(mid), s).Rank() < value.Rank() {
      assert FrozenChange(s) in next.changesToFrozen;
    }
  }

  lemma BindRecords(st: State, s: Id, value: Trit, source: Id, sort: Sort)
    ensures var bound := Bind(st, s, value, source, sort);
            bound.Done? ==> Recorded(ChainOf(bound.value.newb, source), s, value)
  {
    if !Recorded(ChainOf(st.newb, source), s, value) && s in st.cache {
      assert Binding(st.nextId, s, value) in [Binding(st.nextId, s, value)] + ChainOf(st.newb, source);
    }
  }

  /** What is above a binding to v that goes up (or down): greater (or lesser) values only. */
  ghost predicate AllPass(cs: seq<Binding>, v: Trit, sort: Sort) {
    forall c | c in cs ::
      match sort
      case Plain => false
      case AfterGreater => c.value.Rank() > v.Rank()
      case AfterLesser => c.value.Rank() < v.Rank()
  }

  /** Where s is bound: below the greater (or lesser) bindings on top of its stack and above all others, to the end. */
  lemma SetPlaced(r: Rules, st0: State, mid: State, st': State, s: Id, value: Trit, source: Id, sort: Sort)
    requires Within(r, st0, mid, source) && Fit(r, source, s) && WasSet(r, mid, st', s, value, source, sort)
    requires !IsFrozen(r, mid, s) && (s != source || EvalSymbol(r, ViewOf(mid), s) != value)
    requires !Recorded(ChainOf(mid.newb, source), s, value)
    ensures s in mid.cache
    ensures exists b :: Owns(st'.newb, source, b) && b.symbol == s && b.value == value &&
              forall i | 0 <= i < |mid.cache[s]| ::
                if AllPass(mid.cache[s][..i + 1], value, sort) then Over(st', s, mid.cache[s][i], b)
                else Over(st', s, b, mid.cache[s][i])
  {
    hide Within, Fit, EvalSymbol, SetInternal, AllPass, Over, Owns, Insert;
    var fuel, next :| SetInternal(fuel, r, mid, s, value, source, sort) == Done(next) && Grown(next, st');
    SetBinds(fuel, r, st0, mid, s, value, source, sort);
    var bound, b := Bind(mid, s, value, source, sort).value, Binding(mid.nextId, s, value);
    GrownOn(bound, next, st');
    assert Owns(bound.newb, source, b) by { BindRecordsNew(mid, s, value, source, sort); }
    forall i | 0 <= i < |mid.cache[s]|
      ensures if AllPass(mid.cache[s][..i + 1], value, sort) then Over(st', s, mid.cache[s][i], b)
              else Over(st', s, b, mid.cache[s][i])
    {
      InsertPlaces(bound, mid.cache[s], s, b, sort, i);
    }
  }

  lemma BindRecordsNew(st: State, s: Id, value: Trit, source: Id, sort: Sort)
    requires !Recorded(ChainOf(st.newb, source), s, value) && s in st.cache
    ensures Owns(Bind(st, s, value, source, sort).value.newb, source, Binding(st.nextId, s, value))
  {
  }

  lemma InsertPlaces(st: State, cs: seq<Binding>, s: Id, b: Binding, sort: Sort, i: nat)
    requires s in st.cache && st.cache[s] == Insert(cs, b, sort) && i < |cs|
    ensures if AllPass(cs[..i + 1], b.value, sort) then Over(st, s, cs[i], b) else Over(st, s, b, cs[i])
  {
    var k := InsertPoint(cs, b.value, sort);
    assert st.cache[s][k] == b && st.cache[s][if i < k then i else i + 1] == cs[i];
    if i >= k { assert cs[k] in cs[..i + 1]; }
  }

  /** On the way from st to st', the formula is forced to the value. */
  ghost predicate WasForced(r: Rules, st: State, st': State, e: Expr, source: Id, fixed: Trit) {
    exists fuel, next, n :: Constrain(fuel, r, st, e, source, fixed) == Done((next, n)) && Grown(next, st')
  }

  // ----- what a setting reaches

  /**
   * Why propagation comes to a symbol: it is excluded by the one set, or a trit while the trits are switched off, or
   * above or below the one set; or it is itself set, and a formula is forced that it watches or is visible under.
   */
  datatype Role =
    | Sibling
    | Switched
    | Ancestor(of: Id, value: Trit)
    | Dependent(of: Id, value: Trit)
    | Watcher(formula: Expr)

  /** What happens to t when propagation comes to it in state mid, up to st'. */
  ghost predicate Met(r: Rules, mid: State, st': State, source: Id, t: Id, role: Role) {
    match role
    case Sibling => WasSet(r, mid, st', t, N, source, Plain)
    case Switched => EvalSymbol(r, ViewOf(mid), t) == M ==> WasSet(r, mid, st', t, Y, source, Plain)
    case Ancestor(d, value) =>
      r.At(d).Logical() && r.At(t).Logical() ==>
        exists v :: Raises(r, mid.tritsEnabled, d, value, t, v) && WasSet(r, mid, st', t, v, source, AfterGreater)
    case Dependent(g, value) =>
      r.At(g).Logical() && r.At(t).Logical() && value.Rank() < EvalSymbol(r, ViewOf(mid), t).Rank() ==>
        exists v :: Lowers(r, mid.tritsEnabled, g, value, t, v) && WasSet(r, mid, st', t, v, source, AfterLesser)
    case Watcher(e) => WasForced(r, mid, st', e, source, Y)
  }

  /** mid lies between st and st' in the transaction that began in st0. */
  ghost predicate Between(r: Rules, st0: State, st: State, mid: State, st': State, source: Id) {
    Within(r, st0, mid, source) && mid.hidden <= st.hidden && Grown(st, mid) && Grown(mid, st')
  }

  /** Between st and st', propagation comes to t. */
  ghost predicate Seen(r: Rules, st0: State, st: State, st': State, source: Id, t: Id, role: Role) {
    Fit(r, source, t) && exists mid :: Between(r, st0, st, mid, st', source) && Met(r, mid, st', source, t, role)
  }

  lemma WasSetLater(r: Rules, mid: State, st: State, st': State, s: Id, value: Trit, source: Id, sort: Sort)
    requires WasSet(r, mid, st, s, value, source, sort) && Grown(st, st')
    ensures WasSet(r, mid, st', s, value, source, sort)
  {
    hide SetInternal, Grown;
    var fuel, next :| SetInternal(fuel, r, mid, s, value, source, sort) == Done(next) && Grown(next, st);
    GrownOn(next, st, st');
  }

  lemma ForcedLater(r: Rules, st: State, mid: State, st': State, e: Expr, source: Id, fixed: Trit)
    requires WasForced(r, st, mid, e, source, fixed) && Grown(mid, st')
    ensures WasForced(r, st, st', e, source, fixed)
  {
    hide Grown, Constrain;
    var fuel, next, n :| Constrain(fuel, r, st, e, source, fixed) == Done((next, n)) && Grown(next, mid);
    GrownOn(next, mid, st');
  }

  lemma MetLater(r: Rules, mid: State, st: State, st': State, source: Id, t: Id, role: Role)
    requires Met(r, mid, st, source, t, role) && Grown(st, st')
    ensures Met(r, mid, st', source, t, role)
  {
    hide WasSet, WasForced, Grown, Raises, Lowers, EvalSymbol;
    if role.Watcher? { ForcedLater(r, mid, st, st', role.formula, source, Y); }
    forall v, sort | WasSet(r, mid, st, t, v, source, sort) ensures WasSet(r, mid, st', t, v, source, sort) {
      WasSetLater(r, mid, st, st', t, v, source, sort);
    }
  }

  /** What is seen on part of the way is seen on the whole of it. */
  lemma SeenOn(r: Rules, st0: State, a: State, b: State, c: State, d: State, source: Id, t: Id, role: Role)
    requires Seen(r, st0, b, c, source, t, role) && Grown(a, b) && b.hidden <= a.hidden && Grown(c, d)
    ensures Seen(r, st0, a, d, source, t, role)
  {
    hide Met, Grown, Within;
    var mid :| Between(r, st0, b, mid, c, source) && Met(r, mid, c, source, t, role);
    GrownOn(a, b, mid);
    GrownOn(mid, c, d);
    MetLater(r, mid, c, d, source, t, role);
    assert Between(r, st0, a, mid, d, source);
  }

  lemma GrownSelf(st: State)
    ensures Grown(st, st)
  {
  }

  lemma SetNow(fuel: nat, r: Rules, st0: State, st: State, s: Id, value: Trit, source: Id, sort: Sort)
    requires Within(r, st0, st, source) && Fit(r, source, s)
    ensures var res := SetInternal(fuel, r, st, s, value, source, sort);
            res.Done? ==> WasSet(r, st, res.value, s, value, source, sort) &&
                          Between(r, st0, st, st, res.value, source)
  {
    hide Within, Fit, SetInternal, Grown;
    SetInternalWithin(fuel, r, st0, st, s, value, source, sort);
    var res := SetInternal(fuel, r, st, s, value, source, sort);
    GrownSelf(st);
    if res.Done? { GrownSelf(res.value); }
  }

  lemma {:induction false} SiblingsSeen(fuel: nat, r: Rules, st0: State, st: State, siblings: seq<Id>, source: Id,
                                        t: Id)
    requires Within(r, st0, st, source) && (forall s | s in siblings :: Fit(r, source, s)) && t in siblings
    ensures var res := SetSiblings(fuel, r, st, siblings, source);
            res.Done? ==> Seen(r, st0, st, res.value, source, t, Sibling)
    decreases |siblings|
  {
    hide Within, Fit, SetInternal, Grown;
    SetInternalWithin(fuel, r, st0, st, siblings[0], N, source, Plain);
    var first := SetInternal(fuel, r, st, siblings[0], N, source, Plain);
    var all := SetSiblings(fuel, r, st, siblings, source);
    if all.Raised? { return; }
    SetSiblingsWithin(fuel, r, st0, first.value, siblings[1..], source);
    if t == siblings[0] {
      SetNow(fuel, r, st0, st, t, N, source, Plain);
      assert Met(r, st, first.value, source, t, Sibling);
      GrownSelf(st);
      SeenOn(r, st0, st, st, first.value, all.value, source, t, Sibling);
    } else {
      SiblingsSeen(fuel, r, st0, first.value, siblings[1..], source, t);
      GrownSelf(all.value);
      SeenOn(r, st0, st, first.value, all.value, all.value, source, t, Sibling);
    }
  }

  lemma {:induction false} TritsSeen(fuel: nat, r: Rules, st0: State, st: State, entries: seq<Id>, source: Id, t: Id)
    requires Within(r, st0, st, source) && t in entries && r.At(t).kind.TritKind? && !r.At(t).derived
    ensures var res := RaiseTrits(fuel, r, st, entries, source);
            res.Done? ==> Seen(r, st0, st, res.value, source, t, Switched)
    decreases |entries|
  {
    hide Within, Fit, SetInternal, Grown, EvalSymbol;
    var s, all := entries[0], RaiseTrits(fuel, r, st, entries, source);
    if all.Raised? { return; }
    var raise := r.At(s).kind.TritKind? && !r.At(s).derived && EvalSymbol(r, ViewOf(st), s) == M;
    var next := if raise then SetInternal(fuel, r, st, s, Y, source, Plain).value else st;
    GrownSelf(st);
    if raise {
      SettableFits(r, source, s);
      SetInternalWithin(fuel, r, st0, st, s, Y, source, Plain);
      SetNow(fuel, r, st0, st, s, Y, source, Plain);
    }
    RaiseTritsWithin(fuel, r, st0, next, entries[1..], source);
    if t == s {
      SettableFits(r, source, t);
      assert Met(r, st, next, source, t, Switched) && Between(r, st0, st, st, next, source);
      SeenOn(r, st0, st, st, next, all.value, source, t, Switched);
    } else {
      TritsSeen(fuel, r, st0, next, entries[1..], source, t);
      GrownSelf(all.value);
      SeenOn(r, st0, st, next, all.value, all.value, source, t, Switched);
    }
  }

  // ----- dependents

  lemma LowersIsDependentValue(r: Rules, st: State, guard: Id, value: Trit, dependent: Id, current: Trit)
    requires r.At(guard).Logical() && r.At(dependent).Logical() && value.Rank() < current.Rank()
    ensures Lowers(r, st.tritsEnabled, guard, value, dependent,
                   DependentValue(r, st, guard, value, dependent, current))
  {
  }

  /** The first thing that going down does: the dependent itself is lowered, if its value is greater. */
  lemma DependentNow(fuel: nat, r: Rules, st0: State, st: State, guard: Id, source: Id, value: Trit, dependent: Id)
    requires Within(r, st0, st, source) && Fit(r, source, dependent)
    requires fuel != 0 && ForceDependents(fuel, r, st, guard, source, value, dependent).Done?
    ensures exists next :: Between(r, st0, st, next, next, source)
              && Seen(r, st0, st, next, source, dependent, Dependent(guard, value))
              && ForceDependents(fuel, r, st, guard, source, value, dependent) ==
                 ForceAllDependents(fuel - 1, r, next, guard, source, value, DownFrom(r, dependent))
  {
    hide Within, Fit, SetInternal, Grown, EvalSymbol, Lowers, DependentValue, ForceAllDependents;
    var current := EvalSymbol(r, ViewOf(st), dependent);
    GrownSelf(st);
    if r.At(guard).Logical() && r.At(dependent).Logical() && value.Less(current) {
      var v := DependentValue(r, st, guard, value, dependent, current);
      LowersIsDependentValue(r, st, guard, value, dependent, current);
      SetInternalWithin(fuel - 1, r, st0, st, dependent, v, source, AfterLesser);
      SetNow(fuel - 1, r, st0, st, dependent, v, source, AfterLesser);
      var next := SetInternal(fuel - 1, r, st, dependent, v, source, AfterLesser).value;
      GrownSelf(next);
      assert Met(r, st, next, source, dependent, Dependent(guard, value)) && Between(r, st0, st, st, next, source);
      assert Between(r, st0, st, next, next, source);
    } else {
      assert Met(r, st, st, source, dependent, Dependent(guard, value));
      assert Between(r, st0, st, st, st, source);
    }
  }

  /** The dependent's new value, form by form; it stays recorded to the end of the recursion below it. */
  lemma DependentLowered(fuel: nat, r: Rules, st0: State, st: State, guard: Id, source: Id, value: Trit, dependent: Id)
    requires Within(r, st0, st, source) && Fit(r, source, dependent) && !IsFrozen(r, st, dependent)
    requires r.At(guard).Logical() && r.At(dependent).Logical()
    requires value.Rank() < EvalSymbol(r, ViewOf(st), dependent).Rank()
    requires ForceDependents(fuel, r, st, guard, source, value, dependent).Done?
    ensures var chain := ChainOf(ForceDependents(fuel, r, st, guard, source, value, dependent).value.newb, source);
            var g, d := r.At(guard).kind, r.At(dependent).kind;
            && (g == d ==> Recorded(chain, dependent, value))
            && (g.BoolKind? && d.TritKind? ==> Recorded(chain, dependent, if st.tritsEnabled then value else N))
            && (g.TritKind? && d.BoolKind? && (value == N || !st.tritsEnabled) ==> Recorded(chain, dependent, N))
            && (g.TritKind? && d.BoolKind? && value == M && st.tritsEnabled && dependent != source ==>
                  Recorded(chain, dependent, Y))
  {
    hide Within, Fit, SetInternal, Grown, EvalSymbol, DependentValue, ForceAllDependents, Recorded;
    var current := EvalSymbol(r, ViewOf(st), dependent);
    var v := DependentValue(r, st, guard, value, dependent, current);
    LowersIsDependentValue(r, st, guard, value, dependent, current);
    var next := SetInternal(fuel - 1, r, st, dependent, v, source, AfterLesser).value;
    SetInternalWithin(fuel - 1, r, st0, st, dependent, v, source, AfterLesser);
    LinksFit(r, source, dependent);
    ForceAllDependentsWithin(fuel - 1, r, st0, next, guard, source, value, DownFrom(r, dependent));
    var st' := ForceDependents(fuel, r, st, guard, source, value, dependent).value;
    assert WasSet(r, st, st', dependent, v, source, AfterLesser);
    SetRecorded(r, st0, st, st', dependent, v, source, AfterLesser);
  }

  /** Going down from one symbol comes to every symbol below it. */
  lemma {:induction false} DependentSeen(fuel: nat, r: Rules, st0: State, st: State, guard: Id, source: Id,
                                         value: Trit, path: seq<Id>)
    requires Within(r, st0, st, source) && path != [] && Fit(r, source, path[0])
    requires |path| > 1 ==> DownPath(r, DownFrom(r, path[0]), path[1..])
    ensures var res := ForceDependents(fuel, r, st, guard, source, value, path[0]);
            res.Done? ==> Seen(r, st0, st, res.value, source, End(path), Dependent(guard, value))
    decreases fuel, 0
  {
    hide Within, Fit, Grown, Met, Seen, ForceDependents, ForceAllDependents, DownPath;
    var all := ForceDependents(fuel, r, st, guard, source, value, path[0]);
    if all.Raised? { return; }
    assert fuel != 0 by { FuelUsed(fuel, r, st, guard, source, value, path[0]); }
    DependentNow(fuel, r, st0, st, guard, source, value, path[0]);
    var next :| Between(r, st0, st, next, next, source)
              && Seen(r, st0, st, next, source, path[0], Dependent(guard, value))
              && all == ForceAllDependents(fuel - 1, r, next, guard, source, value, DownFrom(r, path[0]));
    LinksFit(r, source, path[0]);
    ForceAllDependentsWithin(fuel - 1, r, st0, next, guard, source, value, DownFrom(r, path[0]));
    GrownSelf(st);
    GrownSelf(all.value);
    if |path| == 1 {
      SeenOn(r, st0, st, st, next, all.value, source, path[0], Dependent(guard, value));
    } else {
      DependentsSeen(fuel - 1, r, st0, next, guard, source, value, DownFrom(r, path[0]), path[1..]);
      SeenOn(r, st0, st, next, all.value, all.value, source, End(path), Dependent(guard, value));
    }
  }

  lemma FuelUsed(fuel: nat, r: Rules, st: State, guard: Id, source: Id, value: Trit, dependent: Id)
    requires ForceDependents(fuel, r, st, guard, source, value, dependent).Done?
    ensures fuel != 0
  {
  }

  lemma {:induction false} DependentsSeen(fuel: nat, r: Rules, st0: State, st: State, guard: Id, source: Id,
                                          value: Trit, dependents: seq<Id>, path: seq<Id>)
    requires Within(r, st0, st, source) && (forall t | t in dependents :: Fit(r, source, t))
    requires DownPath(r, dependents, path)
    ensures var res := ForceAllDependents(fuel, r, st, guard, source, value, dependents);
            res.Done? ==> Seen(r, st0, st, res.value, source, End(path), Dependent(guard, value))
    decreases fuel, |dependents|
  {
    hide Within, Fit, Grown, Met, ForceDependents;
    var all := ForceAllDependents(fuel, r, st, guard, source, value, dependents);
    if all.Raised? { return; }
    ForceDependentsWithin(fuel, r, st0, st, guard, source, value, dependents[0]);
    var next := ForceDependents(fuel, r, st, guard, source, value, dependents[0]).value;
    ForceAllDependentsWithin(fuel, r, st0, next, guard, source, value, dependents[1..]);
    GrownSelf(st);
    GrownSelf(all.value);
    if path[0] == dependents[0] {
      DependentSeen(fuel, r, st0, st, guard, source, value, path);
      SeenOn(r, st0, st, st, next, all.value, source, End(path), Dependent(guard, value));
    } else {
      DependentsSeen(fuel, r, st0, next, guard, source, value, dependents[1..], path);
      SeenOn(r, st0, st, next, all.value, all.value, source, End(path), Dependent(guard, value));
    }
  }

  // ----- ancestors

  lemma RaisesIsAncestorValue(r: Rules, st: State, dependent: Id, value: Trit, ancestor: Id)
    requires r.At(dependent).Logical() && r.At(ancestor).Logical()
    ensures Raises(r, st.tritsEnabled, dependent, value, ancestor, AncestorValue(r, st, dependent, value, ancestor))
  {
  }

  /** The first thing that going up does: the ancestor itself is raised. */
  lemma AncestorNow(fuel: nat, r: Rules, st0: State, st: State, dependent: Id, source: Id, value: Trit, ancestor: Id)
    returns (next: State)
    requires Within(r, st0, st, source) && Fit(r, source, ancestor) && value != N
    requires ForceAncestors(fuel, r, st, dependent, source, value, ancestor).Done?
    ensures fuel != 0
    ensures Between(r, st0, st, next, next, source)
    ensures Seen(r, st0, st, next, source, ancestor, Ancestor(dependent, value))
    ensures var own := ForceAllAncestors(fuel - 1, r, next, dependent, source, value, r.At(ancestor).ancestors);
            own.Done? && r.At(ancestor).menu.Some? &&
            ForceAncestors(fuel, r, st, dependent, source, value, ancestor) ==
            ForceAllAncestors(fuel - 1, r, own.value, dependent, source, value,
                              r.At(r.At(ancestor).menu.value).ancestors)
  {
    hide Within, Fit, SetInternal, Grown, EvalSymbol, Raises, AncestorValue, ForceAllAncestors;
    GrownSelf(st);
    next := st;
    if r.At(dependent).Logical() && r.At(ancestor).Logical() {
      var v := AncestorValue(r, st, dependent, value, ancestor);
      RaisesIsAncestorValue(r, st, dependent, value, ancestor);
      SetInternalWithin(fuel - 1, r, st0, st, ancestor, v, source, AfterGreater);
      SetNow(fuel - 1, r, st0, st, ancestor, v, source, AfterGreater);
      next := SetInternal(fuel - 1, r, st, ancestor, v, source, AfterGreater).value;
      GrownSelf(next);
    }
    assert Met(r, st, next, source, ancestor, Ancestor(dependent, value)) && Between(r, st0, st, st, next, source);
  }

  /** The ancestor's new value, form by form; it stays recorded to the end of the recursion above it. */
  lemma AncestorRaised(fuel: nat, r: Rules, st0: State, st: State, dependent: Id, source: Id, value: Trit, ancestor: Id)
    requires Within(r, st0, st, source) && Fit(r, source, ancestor) && !IsFrozen(r, st, ancestor) && ancestor != source
    requires r.At(dependent).Logical() && r.At(ancestor).Logical() && value != N
    requires ForceAncestors(fuel, r, st, dependent, source, value, ancestor).Done?
    ensures var chain := ChainOf(ForceAncestors(fuel, r, st, dependent, source, value, ancestor).value.newb, source);
            var d, a := r.At(dependent).kind, r.At(ancestor).kind;
            && (d == a ==> Recorded(chain, ancestor, value))
            && (d.TritKind? && a.BoolKind? ==> Recorded(chain, ancestor, Y))
            && (d.BoolKind? && a.TritKind? ==> Recorded(chain, ancestor, if st.tritsEnabled then M else Y))
  {
    hide Within, Fit, Grown, EvalSymbol, ForceAncestors, Recorded, SetInternal;
    var st' := ForceAncestors(fuel, r, st, dependent, source, value, ancestor).value;
    AncestorSet(fuel, r, st0, st, dependent, source, value, ancestor);
    var v :| Raises(r, st.tritsEnabled, dependent, value, ancestor, v) &&
             WasSet(r, st, st', ancestor, v, source, AfterGreater);
    SetRecorded(r, st0, st, st', ancestor, v, source, AfterGreater);
  }

  lemma AncestorSet(fuel: nat, r: Rules, st0: State, st: State, dependent: Id, source: Id, value: Trit, ancestor: Id)
    requires Within(r, st0, st, source) && Fit(r, source, ancestor)
    requires r.At(dependent).Logical() && r.At(ancestor).Logical() && value != N
    requires ForceAncestors(fuel, r, st, dependent, source, value, ancestor).Done?
    ensures exists v :: Raises(r, st.tritsEnabled, dependent, value, ancestor, v) &&
              WasSet(r, st, ForceAncestors(fuel, r, st, dependent, source, value, ancestor).value, ancestor, v, source,
                     AfterGreater)
  {
    hide Within, Fit, SetInternal, Grown, EvalSymbol, Raises, AncestorValue, ForceAllAncestors;
    var v := AncestorValue(r, st, dependent, value, ancestor);
    RaisesIsAncestorValue(r, st, dependent, value, ancestor);
    SetInternalWithin(fuel - 1, r, st0, st, ancestor, v, source, AfterGreater);
    var next := SetInternal(fuel - 1, r, st, ancestor, v, source, AfterGreater).value;
    LinksFit(r, source, ancestor);
    LinksFit(r, source, r.At(ancestor).menu.value);
    ForceAllAncestorsWithin(fuel - 1, r, st0, next, dependent, source, value, r.At(ancestor).ancestors);
    var own := ForceAllAncestors(fuel - 1, r, next, dependent, source, value, r.At(ancestor).ancestors).value;
    var above := r.At(r.At(ancestor).menu.value).ancestors;
    ForceAllAncestorsWithin(fuel - 1, r, st0, own, dependent, source, value, above);
    GrownOn(next, own, ForceAncestors(fuel, r, st, dependent, source, value, ancestor).value);
  }

  /** Going up from one symbol comes to every symbol above it, through ancestors and menus. */
  lemma {:induction false} AncestorSeen(fuel: nat, r: Rules, st0: State, st: State, dependent: Id, source: Id,
                                        value: Trit, path: seq<Id>)
    requires Within(r, st0, st, source) && path != [] && Fit(r, source, path[0]) && value != N
    requires |path| > 1 ==> UpPath(r, UpFrom(r, path[0]), path[1..])
    ensures var res := ForceAncestors(fuel, r, st, dependent, source, value, path[0]);
            res.Done? ==> Seen(r, st0, st, res.value, source, End(path), Ancestor(dependent, value))
    decreases fuel, 0
  {
    hide Within, Fit, Grown, Met, Seen, ForceAncestors, ForceAllAncestors, UpPath;
    var all := ForceAncestors(fuel, r, st, dependent, source, value, path[0]);
    if all.Raised? { return; }
    var a := path[0];
    var next := AncestorNow(fuel, r, st0, st, dependent, source, value, a);
    LinksFit(r, source, a);
    LinksFit(r, source, r.At(a).menu.value);
    ForceAllAncestorsWithin(fuel - 1, r, st0, next, dependent, source, value, r.At(a).ancestors);
    var own := ForceAllAncestors(fuel - 1, r, next, dependent, source, value, r.At(a).ancestors).value;
    var above := r.At(r.At(a).menu.value).ancestors;
    ForceAllAncestorsWithin(fuel - 1, r, st0, own, dependent, source, value, above);
    GrownSelf(st);
    GrownSelf(all.value);
    GrownOn(next, own, all.value);
    GrownOn(st, next, own);
    if |path| == 1 {
      SeenOn(r, st0, st, st, next, all.value, source, a, Ancestor(dependent, value));
    } else if path[1] in r.At(a).ancestors {
      FirstUp(r, UpFrom(r, a), r.At(a).ancestors, path[1..]);
      AncestorsSeen(fuel - 1, r, st0, next, dependent, source, value, r.At(a).ancestors, path[1..]);
      SeenOn(r, st0, st, next, own, all.value, source, End(path), Ancestor(dependent, value));
    } else {
      FirstUp(r, UpFrom(r, a), above, path[1..]);
      AncestorsSeen(fuel - 1, r, st0, own, dependent, source, value, above, path[1..]);
      SeenOn(r, st0, st, own, all.value, all.value, source, End(path), Ancestor(dependent, value));
    }
  }

  lemma FirstUp(r: Rules, from: seq<Id>, part: seq<Id>, path: seq<Id>)
    requires UpPath(r, from, path)
    ensures path != [] && path[0] in from && (path[0] in part ==> UpPath(r, part, path))
  {
  }

  lemma {:induction false} AncestorsSeen(fuel: nat, r: Rules, st0: State, st: State, dependent: Id, source: Id,
                                         value: Trit, ancestors: seq<Id>, path: seq<Id>)
    requires Within(r, st0, st, source) && (forall t | t in ancestors :: Fit(r, source, t)) && value != N
    requires UpPath(r, ancestors, path)
    ensures var res := ForceAllAncestors(fuel, r, st, dependent, source, value, ancestors);
            res.Done? ==> Seen(r, st0, st, res.value, source, End(path), Ancestor(dependent, value))
    decreases fuel, |ancestors|
  {
    hide Within, Fit, Grown, Met, ForceAncestors;
    var all := ForceAllAncestors(fuel, r, st, dependent, source, value, ancestors);
    if all.Raised? { return; }
    ForceAncestorsWithin(fuel, r, st0, st, dependent, source, value, ancestors[0]);
    var next := ForceAncestors(fuel, r, st, dependent, source, value, ancestors[0]).value;
    ForceAllAncestorsWithin(fuel, r, st0, next, dependent, source, value, ancestors[1..]);
    GrownSelf(st);
    GrownSelf(all.value);
    if path[0] == ancestors[0] {
      AncestorSeen(fuel, r, st0, st, dependent, source, value, path);
      SeenOn(r, st0, st, st, next, all.value, source, End(path), Ancestor(dependent, value));
    } else {
      AncestorsSeen(fuel, r, st0, next, dependent, source, value, ancestors[1..], path);
      SeenOn(r, st0, st, next, all.value, all.value, source, End(path), Ancestor(dependent, value));
    }
  }

  // ----- formulas

  lemma {:induction false} AllSeen(fuel: nat, r: Rules, st0: State, st: State, wffs: seq<Expr>, source: Id, s: Id,
                                   e: Expr)
    requires Within(r, st0, st, source) && Fit(r, source, s) && e in wffs
    requires forall f | f in wffs :: AllMentioned(r, st0, f) && Meek(r, st0, f, Y)
    ensures var res := ConstrainAll(fuel, r, st, wffs, source);
            res.Done? ==> Seen(r, st0, st, res.value.0, source, s, Watcher(e))
    decreases |wffs|
  {
    hide Within, Fit, Grown, Constrain, AllMentioned, AllMild, Mild;
    var all := ConstrainAll(fuel, r, st, wffs, source);
    if all.Raised? { return; }
    ConstrainWithin(fuel, r, st0, st, wffs[0], source, Y);
    var next := Constrain(fuel, r, st, wffs[0], source, Y).value.0;
    ConstrainAllWithin(fuel, r, st0, next, wffs[1..], source);
    if e == wffs[0] {
      ForcedNow(fuel, r, st0, st, e, source, s);
      GrownSelf(st);
      SeenOn(r, st0, st, st, next, all.value.0, source, s, Watcher(e));
    } else {
      AllSeen(fuel, r, st0, next, wffs[1..], source, s, e);
      GrownSelf(all.value.0);
      SeenOn(r, st0, st, next, all.value.0, all.value.0, source, s, Watcher(e));
    }
  }

  lemma ForcedNow(fuel: nat, r: Rules, st0: State, st: State, e: Expr, source: Id, s: Id)
    requires Within(r, st0, st, source) && Fit(r, source, s) && AllMentioned(r, st0, e) && Meek(r, st0, e, Y)
    ensures var res := Constrain(fuel, r, st, e, source, Y);
            res.Done? ==> Seen(r, st0, st, res.value.0, source, s, Watcher(e))
  {
    hide Within, Fit, Grown, Constrain, AllMentioned, AllMild, Mild;
    ConstrainWithin(fuel, r, st0, st, e, source, Y);
    var res := Constrain(fuel, r, st, e, source, Y);
    GrownSelf(st);
    if res.Done? {
      GrownSelf(res.value.0);
      assert Constrain(fuel, r, st, e, source, Y) == Done((res.value.0, res.value.1));
      assert Between(r, st0, st, st, res.value.0, source) && Met(r, st, res.value.0, source, s, Watcher(e));
    }
  }

  lemma RoundsSeen(fuel: nat, r: Rules, st0: State, st: State, wffs: seq<Expr>, source: Id, s: Id, e: Expr)
    requires Within(r, st0, st, source) && Fit(r, source, s) && e in wffs
    requires forall f | f in wffs :: AllMentioned(r, st0, f) && Meek(r, st0, f, Y)
    ensures var res := ConstrainRounds(fuel, r, st, wffs, source);
            res.Done? ==> Seen(r, st0, st, res.value, source, s, Watcher(e))
  {
    hide Within, Fit, Grown, ConstrainAll, AllMentioned, AllMild, Mild, Seen;
    var rounds := ConstrainRounds(fuel, r, st, wffs, source);
    if rounds.Raised? { return; }
    AllSeen(fuel - 1, r, st0, st, wffs, source, s, e);
    ConstrainAllWithin(fuel - 1, r, st0, st, wffs, source);
    var (next, n) := ConstrainAll(fuel - 1, r, st, wffs, source).value;
    GrownSelf(st);
    GrownSelf(next);
    if n != 0 { ConstrainRoundsWithin(fuel - 1, r, st0, next, wffs, source); }
    SeenOn(r, st0, st, st, next, rounds.value, source, s, Watcher(e));
  }

  lemma DeduceSeen(fuel: nat, r: Rules, st0: State, st: State, source: Id, s: Id, e: Expr)
    requires Within(r, st0, st, source) && Fit(r, source, s) && e in Forced(r, st0, s)
    ensures var res := Deduce(fuel, r, st, s, source); res.Done? ==> Seen(r, st0, st, res.value, source, s, Watcher(e))
  {
    hide Within, Fit, Grown, Constrain, ConstrainRounds, AllMentioned, AllMild, Mild, Seen;
    var all := Deduce(fuel, r, st, s, source);
    if all.Raised? { return; }
    SourceFacts(r, st0, st, source);
    DeducedMentioned(r, st0, s);
    GrownSelf(st);
    var next, looks := st, st.interactive && !st.suppressions && r.At(s).visibility.Some?;
    if looks {
      ConstrainWithin(fuel - 1, r, st0, st, r.At(s).visibility.value, source, Y);
      next := Constrain(fuel - 1, r, st, r.At(s).visibility.value, source, Y).value.0;
    }
    SourceFacts(r, st0, next, source);
    ConstrainRoundsWithin(fuel - 1, r, st0, next, Watched(next, s), source);
    if e in Watched(st0, s) {
      RoundsSeen(fuel - 1, r, st0, next, Watched(next, s), source, s, e);
      GrownSelf(all.value);
      SeenOn(r, st0, st, next, all.value, all.value, source, s, Watcher(e));
    } else {
      ForcedNow(fuel - 1, r, st0, st, e, source, s);
      SeenOn(r, st0, st, st, next, all.value, source, s, Watcher(e));
    }
  }

  // ----- the side effects of one setting

  /** All that propagation comes to between st and st' because s is set to the value. */
  ghost predicate Reaches(r: Rules, st0: State, st: State, st': State, s: Id, value: Trit, source: Id, sort: Sort) {
    && (value != N ==> forall t | t in r.At(s).choicegroup :: Seen(r, st0, st, st', source, t, Sibling))
    && (r.tritTie == Some(s) && value == N ==>
          forall t | t in r.dictionary && r.At(t).kind.TritKind? && !r.At(t).derived ::
            Seen(r, st0, st, st', source, t, Switched))
    && (r.At(s).Logical() && value != N && !sort.AfterLesser? ==>
          forall path | UpPath(r, UpFrom(r, s), path) :: Seen(r, st0, st, st', source, End(path), Ancestor(s, value)))
    && (r.At(s).Logical() && value != Y && !sort.AfterGreater? ==>
          forall path | DownPath(r, r.At(s).dependents, path) ::
            Seen(r, st0, st, st', source, End(path), Dependent(s, value)))
    && (forall e | e in Forced(r, st0, s) :: Seen(r, st0, st, st', source, s, Watcher(e)))
  }

  /** The formulas that are forced when s is set: its visibility, in an interactive session, and those it watches. */
  function Forced(r: Rules, st: State, s: Id): seq<Expr> {
    match r.At(s).visibility
    case Some(e) => if st.interactive && !st.suppressions then [e] + Watched(st, s) else Watched(st, s)
    case None => Watched(st, s)
  }

  lemma SideEffectsReach(fuel: nat, r: Rules, st0: State, st: State, s: Id, value: Trit, source: Id, sort: Sort)
    requires Within(r, st0, st, source) && Fit(r, source, s)
    ensures var res := SideEffects(fuel, r, st, s, value, source, sort);
            res.Done? ==> Reaches(r, st0, st, res.value, s, value, source, sort)
  {
    hide Within, Fit, Grown, Seen, ForceRelatives, Deduce, SetSiblings, RaiseTrits, UpPath, DownPath, Forced;
    var all := SideEffects(fuel, r, st, s, value, source, sort);
    if all.Raised? { return; }
    var st1 := if value != N then SetSiblings(fuel - 1, r, st, r.At(s).choicegroup, source).value else st;
    var tied := r.tritTie == Some(s) && value == N;
    var st2 := if tied then RaiseTrits(fuel - 1, r, st1, r.dictionary, source).value else st1;
    var st3 := if r.At(s).Logical() then ForceRelatives(fuel - 1, r, st2, s, value, source, sort).value else st2;
    LinksFit(r, source, s);
    GrownSelf(st);
    GrownSelf(st1);
    GrownSelf(st2);
    if value != N { SetSiblingsWithin(fuel - 1, r, st0, st, r.At(s).choicegroup, source); }
    if tied { RaiseTritsWithin(fuel - 1, r, st0, st1, r.dictionary, source); }
    if r.At(s).Logical() { ForceRelativesWithin(fuel - 1, r, st0, st2, s, value, source, sort); }
    DeduceWithin(fuel - 1, r, st0, st3, s, source);
    GrownOn(st2, st3, all.value);
    GrownOn(st1, st2, all.value);
    GrownOn(st, st1, st2);
    if value != N {
      forall t | t in r.At(s).choicegroup ensures Seen(r, st0, st, all.value, source, t, Sibling) {
        SiblingsSeen(fuel - 1, r, st0, st, r.At(s).choicegroup, source, t);
        SeenOn(r, st0, st, st, st1, all.value, source, t, Sibling);
      }
    }
    if tied {
      forall t | t in r.dictionary && r.At(t).kind.TritKind? && !r.At(t).derived
        ensures Seen(r, st0, st, all.value, source, t, Switched)
      {
        TritsSeen(fuel - 1, r, st0, st1, r.dictionary, source, t);
        SeenOn(r, st0, st, st1, st2, all.value, source, t, Switched);
      }
    }
    forall e | e in Forced(r, st0, s) ensures Seen(r, st0, st, all.value, source, s, Watcher(e)) {
      DeduceSeen(fuel - 1, r, st0, st3, source, s, e);
      GrownOn(st, st2, st3);
      GrownSelf(all.value);
      SeenOn(r, st0, st, st3, all.value, all.value, source, s, Watcher(e));
    }
    if r.At(s).Logical() {
      RelativesReach(fuel - 1, r, st0, st2, s, value, source, sort);
      RelativesOn(r, st0, st, st2, st3, all.value, s, value, source, sort);
    }
  }

  ghost predicate RelativesSeen(r: Rules, st0: State, st: State, st': State, s: Id, value: Trit, source: Id,
                                sort: Sort)
  {
    && (value != N && !sort.AfterLesser? ==>
          forall path | UpPath(r, UpFrom(r, s), path) :: Seen(r, st0, st, st', source, End(path), Ancestor(s, value)))
    && (value != Y && !sort.AfterGreater? ==>
          forall path | DownPath(r, r.At(s).dependents, path) ::
            Seen(r, st0, st, st', source, End(path), Dependent(s, value)))
  }

  lemma RelativesOn(r: Rules, st0: State, a: State, b: State, c: State, d: State, s: Id, value: Trit, source: Id,
                    sort: Sort)
    requires RelativesSeen(r, st0, b, c, s, value, source, sort)
    requires Grown(a, b) && b.hidden <= a.hidden && Grown(c, d)
    ensures RelativesSeen(r, st0, a, d, s, value, source, sort)
  {
    hide Grown, Seen, UpPath, DownPath;
    forall t, role | Seen(r, st0, b, c, source, t, role) ensures Seen(r, st0, a, d, source, t, role) {
      SeenOn(r, st0, a, b, c, d, source, t, role);
    }
  }

  lemma RelativesReach(fuel: nat, r: Rules, st0: State, st: State, s: Id, value: Trit, source: Id, sort: Sort)
    requires Within(r, st0, st, source)
    ensures var res := ForceRelatives(fuel, r, st, s, value, source, sort);
            res.Done? ==> RelativesSeen(r, st0, st, res.value, s, value, source, sort)
  {
    hide Within, Fit, Grown, Seen, ForceAllAncestors, ForceAllDependents, UpPath, DownPath;
    var all := ForceRelatives(fuel, r, st, s, value, source, sort);
    if all.Raised? { return; }
    LinksFit(r, source, s);
    GrownSelf(st);
    var next := st;
    var up, down := value != N && !sort.AfterLesser?, value != Y && !sort.AfterGreater?;
    if up {
      LinksFit(r, source, r.At(s).menu.value);
      ForceAllAncestorsWithin(fuel - 1, r, st0, st, s, source, value, UpFrom(r, s));
      next := ForceAllAncestors(fuel - 1, r, st, s, source, value, UpFrom(r, s)).value;
    }
    GrownSelf(next);
    if down { ForceAllDependentsWithin(fuel - 1, r, st0, next, s, source, value, r.At(s).dependents); }
    if up {
      forall path | UpPath(r, UpFrom(r, s), path)
        ensures Seen(r, st0, st, all.value, source, End(path), Ancestor(s, value))
      {
        AncestorsSeen(fuel - 1, r, st0, st, s, source, value, UpFrom(r, s), path);
        SeenOn(r, st0, st, st, next, all.value, source, End(path), Ancestor(s, value));
      }
    }
    if down {
      GrownSelf(all.value);
      forall path | DownPath(r, r.At(s).dependents, path)
        ensures Seen(r, st0, st, all.value, source, End(path), Dependent(s, value))
      {
        DependentsSeen(fuel - 1, r, st0, next, s, source, value, r.At(s).dependents, path);
        SeenOn(r, st0, st, next, all.value, all.value, source, End(path), Dependent(s, value));
      }
    }
  }

  /** The state in which the side effects of setting s are worked out: s is bound, what it was bound to is hidden. */
  function Begun(st: State, s: Id, value: Trit, source: Id, sort: Sort): Result<State> {
    var st := st.(touched := st.touched + [s], chilled := st.chilled[s := source]);
    var st :- Bind(st, s, value, source, sort);
    Done(Conceal(st, {s}))
  }

  /** A setting that does something binds the symbol, and from there reaches all it should. */
  lemma SettingReaches(fuel: nat, r: Rules, st0: State, st: State, s: Id, value: Trit, source: Id, sort: Sort)
    requires Within(r, st0, st, source) && Fit(r, source, s) && !IsFrozen(r, st, s)
    requires s != source || EvalSymbol(r, ViewOf(st), s) != value
    requires SetInternal(fuel, r, st, s, value, source, sort).Done?
    ensures Begun(st, s, value, source, sort).Done?
    ensures Reaches(r, st0, Begun(st, s, value, source, sort).value,
                    SetInternal(fuel, r, st, s, value, source, sort).value, s, value, source, sort)
  {
    hide Within, Fit, Grown, EvalSymbol, SetUnfrozen, Bind, Conceal, Reaches;
    var st1 := st.(touched := st.touched + [s]);
    SourceFacts(r, st0, st, source);
    FrameWithin(r, st0, st, st1, source);
    UnfrozenReaches(fuel - 1, r, st0, st1, s, value, source, sort);
  }

  lemma UnfrozenReaches(fuel: nat, r: Rules, st0: State, st: State, s: Id, value: Trit, source: Id, sort: Sort)
    requires Within(r, st0, st, source) && Fit(r, source, s) && !IsFrozen(r, st, s)
    requires SetUnfrozen(fuel, r, st, s, value, source, sort).Done?
    ensures var bound := Bind(st.(chilled := st.chilled[s := source]), s, value, source, sort);
            bound.Done? && Reaches(r, st0, Conceal(bound.value, {s}),
                                   SetUnfrozen(fuel, r, st, s, value, source, sort).value, s, value, source, sort)
  {
    hide Within, Fit, Grown, EvalSymbol, Bind, SideEffects, Conceal, Reveal, Reaches;
    var chilled := st.(chilled := st.chilled[s := source]);
    SourceFacts(r, st0, st, source);
    ChillWithin(r, st0, st, s, source);
    BindWithin(r, st0, chilled, s, value, source, sort);
    var bound := Bind(chilled, s, value, source, sort).value;
    ConcealWithin(r, st0, bound, source, s);
    var hid := Conceal(bound, {s});
    SideEffectsReach(fuel, r, st0, hid, s, value, source, sort);
    SideEffectsWithin(fuel, r, st0, hid, s, value, source, sort);
    var res := SideEffects(fuel, r, hid, s, value, source, sort).value;
    RevealWithin(r, st0, bound, res, source, s);
    ReachesOn(r, st0, hid, res, Reveal(res, {s}), s, value, source, sort);
  }

  lemma ReachesOn(r: Rules, st0: State, st: State, a: State, b: State, s: Id, value: Trit, source: Id, sort: Sort)
    requires Reaches(r, st0, st, a, s, value, source, sort) && Grown(a, b)
    ensures Reaches(r, st0, st, b, s, value, source, sort)
  {
    hide Grown, Seen, UpPath, DownPath;
    GrownSelf(st);
    forall t, role | Seen(r, st0, st, a, source, t, role) ensures Seen(r, st0, st, b, source, t, role) {
      SeenOn(r, st0, st, st, a, b, source, t, role);
    }
  }

  // ----- an accepted call

  /** Where the propagation of a user's setting begins. */
  function Start(st: State, s: Id, value: Trit): Result<State> {
    Begun(st.(changesToFrozen := []), s, value, s, Plain)
  }

  lemma ProposalReaches(fuel: nat, r: Rules, st: State, s: Id, value: Trit)
    requires Quiescent(st) && !Idle(r, st, s, value) && Proposal(fuel, r, st, s, value).Done?
    ensures Start(st, s, value).Done?
    ensures Reaches(r, st, Start(st, s, value).value, Proposal(fuel, r, st, s, value).value.0, s, value, s, Plain)
  {
    hide Inv, Within, Reaches, SetUnfrozen, EvalSymbol, Bind, Conceal, Grown, Quiescent, Stacks, Family;
    var st1 := st.(changesToFrozen := [], touched := [s]);
    StartWithin(r, st, s);
    assert st1 == st.(changesToFrozen := [], touched := st.touched + [s]) by { QuiescentTouched(st, s); }
    UnfrozenReaches(fuel - 1, r, st, st1, s, value, s, Plain);
    var res := SetInternal(fuel, r, st.(changesToFrozen := []), s, value, s, Plain).value;
    assert res == SetUnfrozen(fuel - 1, r, st1, s, value, s, Plain).value;
    GrownFrame(res, res.(chilled := map[]));
    ReachesOn(r, st, Start(st, s, value).value, res, res.(chilled := map[]), s, value, s, Plain);
  }

  lemma QuiescentTouched(st: State, s: Id)
    requires Quiescent(st)
    ensures st.touched + [s] == [s]
  {
  }

  /** What an accepted call leaves on the chain of the symbol is what its propagation made, and nothing was refused. */
  lemma AcceptedChain(fuel: nat, r: Rules, st: State, s: Id, value: Trit, freeze: bool)
    requires Quiescent(st) && !Idle(r, st, s, value)
    requires SetSymbol(fuel, r, st, s, value, freeze).Done? && SetSymbol(fuel, r, st, s, value, freeze).value.1
    ensures Proposal(fuel, r, st, s, value).Done?
    ensures var prop := Proposal(fuel, r, st, s, value).value.0;
            && Within(r, st, prop, s) && prop.changesToFrozen == []
            && ChainOf(SetSymbol(fuel, r, st, s, value, freeze).value.0.oldb, s) == ChainOf(prop.newb, s)
  {
    hide Inv, Within, Holds, SetSymbol, EvalSymbol, Proposal, Idle;
    DecisionIsAboutTheCommit(fuel, r, st, s, value, freeze);
    ProposalWithin(fuel, r, st, s, value);
    var prop := Proposal(fuel, r, st, s, value).value.0;
    assert s in prop.newb by { WithinFacts(r, st, prop, s); }
  }

  /** Each sibling in the choice group is set to n on the chain of the symbol chosen. */
  lemma SiblingsExcluded(fuel: nat, r: Rules, st: State, s: Id, value: Trit, freeze: bool, t: Id)
    requires Quiescent(st) && !Idle(r, st, s, value)
    requires SetSymbol(fuel, r, st, s, value, freeze).Done? && SetSymbol(fuel, r, st, s, value, freeze).value.1
    requires value != N && t in r.At(s).choicegroup && t != s && !IsFrozen(r, st, t)
    ensures Recorded(ChainOf(SetSymbol(fuel, r, st, s, value, freeze).value.0.oldb, s), t, N)
  {
    hide Within, SetSymbol, Proposal, Quiescent, Idle, WasSet, EvalSymbol, Start, Recorded, Grown, UpPath, DownPath;
    AcceptedChain(fuel, r, st, s, value, freeze);
    ProposalReaches(fuel, r, st, s, value);
    var prop := Proposal(fuel, r, st, s, value).value.0;
    var mid :| Between(r, st, Start(st, s, value).value, mid, prop, s) && Met(r, mid, prop, s, t, Sibling);
    SourceFacts(r, st, mid, s);
    SetRecorded(r, st, mid, prop, t, N, s, Plain);
  }

  /**
   * Every symbol above the one set is raised on its chain. A frozen one must have the value already, and if nothing
   * can change it, it had it before the call.
   */
  lemma AncestorsRaised(fuel: nat, r: Rules, st: State, s: Id, value: Trit, freeze: bool, path: seq<Id>)
    requires Quiescent(st) && !Idle(r, st, s, value)
    requires SetSymbol(fuel, r, st, s, value, freeze).Done? && SetSymbol(fuel, r, st, s, value, freeze).value.1
    requires value != N && UpPath(r, UpFrom(r, s), path) && r.At(s).Logical() && r.At(End(path)).Logical()
    ensures var a, chain := End(path), ChainOf(SetSymbol(fuel, r, st, s, value, freeze).value.0.oldb, s);
            exists v :: && Raises(r, st.tritsEnabled, s, value, a, v)
                        && (!IsFrozen(r, st, a) && a != s ==> Recorded(chain, a, v))
                        && (Safe(r, st, s, a) ==> v.Rank() <= EvalSymbol(r, ViewOf(st), a).Rank())
  {
    hide Within, SetSymbol, Proposal, Quiescent, Idle, WasSet, EvalSymbol, Start, Recorded, Grown, UpPath, DownPath,
         Raises, Anchored, Orderly, Secure;
    AcceptedChain(fuel, r, st, s, value, freeze);
    ProposalReaches(fuel, r, st, s, value);
    var a, prop := End(path), Proposal(fuel, r, st, s, value).value.0;
    assert Seen(r, st, Start(st, s, value).value, prop, s, a, Ancestor(s, value));
    var mid :| Between(r, st, Start(st, s, value).value, mid, prop, s) && Met(r, mid, prop, s, a, Ancestor(s, value));
    SourceFacts(r, st, mid, s);
    WithinFacts(r, st, mid, s);
    var v :| Raises(r, mid.tritsEnabled, s, value, a, v) && WasSet(r, mid, prop, a, v, s, AfterGreater);
    SetRecorded(r, st, mid, prop, a, v, s, AfterGreater);
    if Safe(r, st, s, a) {
      SafeFrozen(r, st, s, a);
      SafeSteady(r, st, mid, s, a);
    }
  }

  lemma SafeFrozen(r: Rules, st: State, source: Id, t: Id)
    requires Safe(r, st, source, t)
    ensures IsFrozen(r, st, t)
  {
  }

  /** The binding on top of t's stack is there, and not from the chain of s. */
  ghost predicate Topped(st: State, s: Id, t: Id) {
    t in st.cache && st.cache[t] != [] && !Owns(st.oldb, s, st.cache[t][0])
  }

  /** The binding on top of t's stack, unless s brought it, stays in force until the call binds t itself. */
  lemma TopOrNew(r: Rules, st: State, mid: State, s: Id, t: Id)
    requires Quiescent(st) && Within(r, st, mid, s) && mid.hidden <= ChainIds(st.oldb, {s})
    requires Topped(st, s, t)
    ensures var now := EvalSymbol(r, ViewOf(mid), t);
            now == st.cache[t][0].value || Recorded(ChainOf(mid.newb, s), t, now)
  {
    hide EvalSymbol, Within, Inv;
    WithinFacts(r, st, mid, s);
    InvParts(mid);
    WithinDrop(r, st, mid, s, t);
    hide Quiescent;
    var top := mid.cache[t][0];
    assert Stacked(mid.cache, top);
    NewIdsExact(mid, s, top);
    ChainIdsExact(mid.oldb, mid.cache, mid.nextId, {s}, top);
    hide Stacks, Family, NewIds, ChainIds;
    assert top.id !in mid.hidden by { InvParts(mid); }
    assert top.symbol == t by { StackSymbols(mid, t); }
    ValueShown(r, mid, t);
  }

  lemma StackSymbols(st: State, t: Id)
    requires Stacks(st.cache, st.nextId) && t in st.cache
    ensures forall b | b in st.cache[t] :: b.symbol == t
  {
  }

  /** Of t's bindings during the call, those not new are those it had. */
  lemma WithinDrop(r: Rules, st: State, mid: State, s: Id, t: Id)
    requires Within(r, st, mid, s) && t in st.cache && st.cache[t] != []
    ensures t in mid.cache && mid.cache[t] != []
    ensures mid.cache[t][0].id in NewIds(mid) || mid.cache[t][0] == st.cache[t][0]
  {
    hide Inv, Uncovered, Again, OnTop, Linked, PairsDistinct, ChainIds;
    DropAt(mid.cache, NewIds(mid), t);
  }

  lemma StartHides(r: Rules, st: State, mid: State, st': State, s: Id, value: Trit)
    requires Quiescent(st) && Start(st, s, value).Done?
    requires Between(r, st, Start(st, s, value).value, mid, st', s)
    ensures mid.hidden <= ChainIds(st.oldb, {s})
  {
    hide Within, Inv, Grown, ChainIds, Insert;
  }

  /**
   * Every symbol below the one set goes down: if propagation finds it at a greater value, it is bound to the value of
   * the table. So whoever had a greater value on top of his stack, from another chain, ends up with a binding to the
   * value of the table or to one that is not above `value`.
   */
  lemma DependentsLowered(fuel: nat, r: Rules, st: State, s: Id, value: Trit, freeze: bool, path: seq<Id>)
    requires Quiescent(st) && !Idle(r, st, s, value)
    requires SetSymbol(fuel, r, st, s, value, freeze).Done? && SetSymbol(fuel, r, st, s, value, freeze).value.1
    requires value != Y && DownPath(r, r.At(s).dependents, path) && r.At(s).Logical() && r.At(End(path)).Logical()
    requires !IsFrozen(r, st, End(path)) && End(path) != s
    ensures var d, chain := End(path), ChainOf(SetSymbol(fuel, r, st, s, value, freeze).value.0.oldb, s);
            && Proposal(fuel, r, st, s, value).Done? && Start(st, s, value).Done?
            && (exists mid ::
                  && Between(r, st, Start(st, s, value).value, mid, Proposal(fuel, r, st, s, value).value.0, s)
                  && (value.Rank() < EvalSymbol(r, ViewOf(mid), d).Rank() ==>
                        exists v :: Lowers(r, st.tritsEnabled, s, value, d, v) && Recorded(chain, d, v)))
            && (Topped(st, s, d) && value.Rank() < st.cache[d][0].value.Rank() ==>
                  exists v :: Recorded(chain, d, v) &&
                              (Lowers(r, st.tritsEnabled, s, value, d, v) || v.Rank() <= value.Rank()))
  {
    hide Within, SetSymbol, Proposal, Quiescent, Idle, WasSet, EvalSymbol, Start, Recorded, UpPath, DownPath, Lowers,
         Grown;
    AcceptedChain(fuel, r, st, s, value, freeze);
    ProposalReaches(fuel, r, st, s, value);
    var d, prop := End(path), Proposal(fuel, r, st, s, value).value.0;
    assert Seen(r, st, Start(st, s, value).value, prop, s, d, Dependent(s, value));
    var mid :| Between(r, st, Start(st, s, value).value, mid, prop, s) && Met(r, mid, prop, s, d, Dependent(s, value));
    SourceFacts(r, st, mid, s);
    WithinFacts(r, st, mid, s);
    var now := EvalSymbol(r, ViewOf(mid), d);
    if value.Rank() < now.Rank() {
      var v :| Lowers(r, mid.tritsEnabled, s, value, d, v) && WasSet(r, mid, prop, d, v, s, AfterLesser);
      SetRecorded(r, st, mid, prop, d, v, s, AfterLesser);
    } else if Topped(st, s, d) && value.Rank() < st.cache[d][0].value.Rank() {
      StartHides(r, st, mid, prop, s, value);
      TopOrNew(r, st, mid, s, d);
      RecordedStays(mid, prop, s, d, now);
    }
  }

  /** Setting a symbol to n sets to n whatever is below it and was not. */
  lemma AllBelowGoToN(fuel: nat, r: Rules, st: State, s: Id, freeze: bool, path: seq<Id>)
    requires Quiescent(st) && !Idle(r, st, s, N)
    requires SetSymbol(fuel, r, st, s, N, freeze).Done? && SetSymbol(fuel, r, st, s, N, freeze).value.1
    requires DownPath(r, r.At(s).dependents, path) && r.At(s).Logical() && r.At(End(path)).Logical()
    requires !IsFrozen(r, st, End(path)) && End(path) != s
    requires Topped(st, s, End(path)) && st.cache[End(path)][0].value != N
    ensures Recorded(ChainOf(SetSymbol(fuel, r, st, s, N, freeze).value.0.oldb, s), End(path), N)
  {
    hide SetSymbol, Proposal, Quiescent, Idle, Recorded, DownPath, Topped, Within, Grown;
    DependentsLowered(fuel, r, st, s, N, freeze, path);
  }

  // ----- the first dependent

  /** In the state in which the side effects begin, d is a dependent to be lowered to n before anything else. */
  ghost predicate FirstInLine(r: Rules, st: State, s: Id, source: Id, d: Id) {
    && r.At(s).dependents != [] && d == r.At(s).dependents[0] && d != source && !IsFrozen(r, st, d)
    && r.At(s).Logical() && r.At(d).Logical() && EvalSymbol(r, ViewOf(st), d) != N
  }

  lemma FirstLowered(fuel: nat, r: Rules, st0: State, st: State, s: Id, source: Id, d: Id)
    requires Within(r, st0, st, source) && FirstInLine(r, st, s, source, d) && r.tritTie != Some(s)
    ensures var res := SideEffects(fuel, r, st, s, N, source, Plain);
            res.Done? ==> Recorded(ChainOf(res.value.newb, source), d, N)
  {
    hide Within, Fit, Grown, Recorded, EvalSymbol, Visible, Deduce, ForceDependents;
    var all := SideEffects(fuel, r, st, s, N, source, Plain);
    if all.Raised? { return; }
    LinksFit(r, source, s);
    var ds := r.At(s).dependents;
    var forced := ForceRelatives(fuel - 1, r, st, s, N, source, Plain);
    assert forced.Done?;
    assert forced == ForceAllDependents(fuel - 2, r, st, s, source, N, ds);
    var first := ForceDependents(fuel - 2, r, st, s, source, N, d);
    ForceDependentsWithin(fuel - 2, r, st0, st, s, source, N, d);
    DependentLowered(fuel - 2, r, st0, st, s, source, N, d);
    ForceAllDependentsWithin(fuel - 2, r, st0, first.value, s, source, N, ds[1..]);
    var next := ForceAllDependents(fuel - 2, r, st, s, source, N, ds).value;
    RecordedStays(first.value, next, source, d, N);
    DeduceWithin(fuel - 1, r, st0, next, s, source);
    RecordedStays(next, all.value, source, d, N);
  }

  lemma UnfrozenFirst(fuel: nat, r: Rules, st0: State, st: State, s: Id, source: Id, d: Id)
    requires Within(r, st0, st, source) && Fit(r, source, s) && !IsFrozen(r, st, s) && r.tritTie != Some(s)
    requires SetUnfrozen(fuel, r, st, s, N, source, Plain).Done?
    ensures var bound := Bind(st.(chilled := st.chilled[s := source]), s, N, source, Plain);
            bound.Done? &&
            (FirstInLine(r, Conceal(bound.value, {s}), s, source, d) ==>
               Recorded(ChainOf(SetUnfrozen(fuel, r, st, s, N, source, Plain).value.newb, source), d, N))
  {
    hide Within, Fit, Grown, EvalSymbol, Bind, SideEffects, Conceal, Reveal, FirstInLine, Recorded;
    var chilled := st.(chilled := st.chilled[s := source]);
    SourceFacts(r, st0, st, source);
    ChillWithin(r, st0, st, s, source);
    BindWithin(r, st0, chilled, s, N, source, Plain);
    var bound := Bind(chilled, s, N, source, Plain).value;
    ConcealWithin(r, st0, bound, source, s);
    var hid := Conceal(bound, {s});
    if FirstInLine(r, hid, s, source, d) {
      FirstLowered(fuel, r, st0, hid, s, source, d);
      SideEffectsWithin(fuel, r, st0, hid, s, N, source, Plain);
      var res := SideEffects(fuel, r, hid, s, N, source, Plain).value;
      RevealWithin(r, st0, bound, res, source, s);
    }
  }

  /**
   * The side effects are worked out without the bindings of the symbol's earlier settings: a first dependent that is
   * not n without them is bound to n, also if an earlier setting had bound it to n and it shows that until the commit.
   */
  lemma LoweredAgain(fuel: nat, r: Rules, st: State, s: Id, freeze: bool, d: Id)
    requires Quiescent(st) && !Idle(r, st, s, N) && r.tritTie != Some(s)
    requires SetSymbol(fuel, r, st, s, N, freeze).Done? && SetSymbol(fuel, r, st, s, N, freeze).value.1
    ensures Start(st, s, N).Done?
    ensures FirstInLine(r, Start(st, s, N).value, s, s, d) ==>
              Recorded(ChainOf(SetSymbol(fuel, r, st, s, N, freeze).value.0.oldb, s), d, N)
  {
    hide Inv, Within, SetUnfrozen, EvalSymbol, Bind, Conceal, Grown, Quiescent, Stacks, Family, Recorded, SetSymbol,
         FirstInLine;
    AcceptedChain(fuel, r, st, s, N, freeze);
    var st1 := st.(changesToFrozen := [], touched := [s]);
    StartWithin(r, st, s);
    assert st1 == st.(changesToFrozen := [], touched := st.touched + [s]) by { QuiescentTouched(st, s); }
    UnfrozenFirst(fuel - 1, r, st, st1, s, s, d);
  }

  /**
   * Switching the trits off binds to y every trit that propagation finds at m. So a trit that had m on top of its
   * stack, from another chain, ends up with a binding to y or n.
   */
  lemma NoTritStaysAtM(fuel: nat, r: Rules, st: State, s: Id, freeze: bool, t: Id)
    requires Quiescent(st) && !Idle(r, st, s, N) && r.tritTie == Some(s)
    requires SetSymbol(fuel, r, st, s, N, freeze).Done? && SetSymbol(fuel, r, st, s, N, freeze).value.1
    requires t in r.dictionary && r.At(t).kind.TritKind? && !r.At(t).derived && t != s && !IsFrozen(r, st, t)
    ensures var chain := ChainOf(SetSymbol(fuel, r, st, s, N, freeze).value.0.oldb, s);
            && Proposal(fuel, r, st, s, N).Done? && Start(st, s, N).Done?
            && (exists mid ::
                  && Between(r, st, Start(st, s, N).value, mid, Proposal(fuel, r, st, s, N).value.0, s)
                  && (EvalSymbol(r, ViewOf(mid), t) == M ==> Recorded(chain, t, Y)))
            && (Topped(st, s, t) && st.cache[t][0].value == M ==> Recorded(chain, t, Y) || Recorded(chain, t, N))
  {
    hide Within, SetSymbol, Proposal, Quiescent, Idle, WasSet, EvalSymbol, Start, Recorded, UpPath, DownPath, Grown;
    AcceptedChain(fuel, r, st, s, N, freeze);
    ProposalReaches(fuel, r, st, s, N);
    var prop := Proposal(fuel, r, st, s, N).value.0;
    assert Seen(r, st, Start(st, s, N).value, prop, s, t, Switched);
    var mid :| Between(r, st, Start(st, s, N).value, mid, prop, s) && Met(r, mid, prop, s, t, Switched);
    SourceFacts(r, st, mid, s);
    var now := EvalSymbol(r, ViewOf(mid), t);
    if now == M {
      SetRecorded(r, st, mid, prop, t, Y, s, Plain);
    } else if Topped(st, s, t) && st.cache[t][0].value == M {
      StartHides(r, st, mid, prop, s, N);
      TopOrNew(r, st, mid, s, t);
      RecordedStays(mid, prop, s, t, now);
    }
  }
}
