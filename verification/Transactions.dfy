/** What a user's setting keeps while its side effects are propagated. */
module Transactions {
  import opened Options
  import opened Rulebase
  import opened Journal
  import opened Propagation
  import opened FrozenSymbols

  /** No menu, ancestry or choice group links to a derived symbol. */
  ghost predicate Linked(r: Rules) {
    forall s | 0 <= s < |r.symbols| ::
      && Settable(r, r.symbols[s].ancestors) && Settable(r, r.symbols[s].dependents)
      && Settable(r, r.symbols[s].choicegroup) && Settable(r, r.symbols[s].items)
  }

  ghost predicate Settable(r: Rules, ids: seq<Id>) { forall s | s in ids :: !r.At(s).derived }

  ghost predicate PairsDistinct(chain: Chain) {
    forall i, j | 0 <= i < j < |chain| :: !(chain[i].symbol == chain[j].symbol && chain[i].value == chain[j].value)
  }

  function NewIds(st: State): set<nat> { ChainIds(st.newb, st.newb.Keys) }

  /** Derived symbols get no bindings, apart from a derived symbol the user sets. */
  ghost predicate Fit(r: Rules, source: Id, s: Id) { Linked(r) ==> s == source || !r.At(s).derived }

  /**
   * `st` is reached from the quiescent `st0` while `source` is being set: all that is new hangs on `source`, and
   * taking the new bindings out again gives the stacks of `st0`.
   */
  ghost predicate Within(r: Rules, st0: State, st: State, source: Id) {
    && Inv(st)
    && st.cache.Keys == st0.cache.Keys && st0.nextId <= st.nextId
    && Drop(st.cache, NewIds(st)) == st0.cache
    && st.oldb == st0.oldb && st.iced == st0.iced && st.reduced == st0.reduced && st.access == st0.access
    && st.tritsEnabled == st0.tritsEnabled
    && st.interactive == st0.interactive && st.suppressions == st0.suppressions
    && st.newb.Keys <= {source} && (source in st.newb ==> st.newb[source] != [])
    && (forall s | s in st.chilled :: st.chilled[s] == source)
    && PairsDistinct(ChainOf(st.newb, source))
    && (Linked(r) ==> forall s | s in st0.cache && r.At(s).derived && s != source :: st.cache[s] == st0.cache[s])
    && source in st.touched
    && OnTop(r, st0, st, source) && Uncovered(r, st0, st.hidden) && Again(r, st0, ChainOf(st.newb, source), source)
  }

  /** The chains of frozen symbols are not concealed. */
  ghost predicate Uncovered(r: Rules, st0: State, hidden: set<nat>) {
    forall p | IsFrozen(r, st0, p) :: hidden !! ChainIds(st0.oldb, {p})
  }

  ghost predicate Orderly(r: Rules, st0: State, source: Id) {
    Linked(r) && !r.At(source).derived && Unbound(r, st0)
  }

  /** A frozen symbol whose value the transaction cannot change. */
  ghost predicate Safe(r: Rules, st0: State, source: Id, t: Id) {
    st0.hidden == {} && (Anchored(r, st0, t) || (Orderly(r, st0, source) && Secure(r, st0, t)))
  }

  /** A frozen symbol is bound again only by a formula that mentions it; to the value it has, if that is safe. */
  ghost predicate Again(r: Rules, st0: State, chain: Chain, source: Id) {
    forall b | b in chain && IsFrozen(r, st0, b.symbol) ::
      && Mentioned(r, st0, b.symbol)
      && (Safe(r, st0, source, b.symbol) ==> b.value == EvalSymbol(r, ViewOf(st0), b.symbol))
  }

  /** A frozen symbol can only be bound again, on top of what it has. */
  ghost predicate OnTop(r: Rules, st0: State, st: State, source: Id)
    requires st.cache.Keys == st0.cache.Keys
  {
    forall s | s in st0.cache && IsFrozen(r, st0, s) :: st.cache[s] == On(ChainOf(st.newb, source), s) + st0.cache[s]
  }

  /** Binding b lies above binding c on the stack of symbol s. */
  ghost predicate Over(st: State, s: Id, b: Binding, c: Binding) {
    s in st.cache && exists i, j :: 0 <= i < j < |st.cache[s]| && st.cache[s][i] == b && st.cache[s][j] == c
  }

  /** Nothing that was on a new chain, touched or refused has gone, and what lay above another binding still does. */
  ghost predicate Grown(st: State, st': State) {
    && (forall p, b | Owns(st.newb, p, b) :: Owns(st'.newb, p, b))
    && (forall v | v in st.changesToFrozen :: v in st'.changesToFrozen)
    && (forall t | t in st.touched :: t in st'.touched)
    && (forall s, b, c | Over(st, s, b, c) :: Over(st', s, b, c))
    && st.newb.Keys <= st'.newb.Keys
  }

  /** The step stayed within the transaction, left no more bindings hidden than it found, and lost nothing new. */
  ghost predicate Kept(r: Rules, st0: State, st: State, source: Id, result: Result<State>) {
    match result
    case Done(st') => Within(r, st0, st', source) && st'.hidden <= st.hidden && Grown(st, st')
    case Raised(e) => e != Unsatisfiable && (AllMild(r, st0) ==> !Slip(e))
  }

  ghost predicate KeptWith(r: Rules, st0: State, st: State, source: Id, result: Result<(State, nat)>) {
    match result
    case Done((st', _)) => Within(r, st0, st', source) && st'.hidden <= st.hidden && Grown(st, st')
    case Raised(e) => e != Unsatisfiable && (AllMild(r, st0) ==> !Slip(e))
  }

  lemma FrameWithin(r: Rules, st0: State, st: State, st': State, source: Id)
    requires Within(r, st0, st, source)
    requires st' == st.(touched := st'.touched, changesToFrozen := st'.changesToFrozen, hidden := st'.hidden)
    requires source in st'.touched && Uncovered(r, st0, st'.hidden)
    ensures Within(r, st0, st', source)
  {
    hide Inv, Drop, ChainIds, Linked, On, Uncovered, Again;
    InvFrame(st, st');
  }

  lemma ChillWithin(r: Rules, st0: State, st: State, s: Id, source: Id)
    requires Within(r, st0, st, source)
    ensures Within(r, st0, st.(chilled := st.chilled[s := source]), source)
  {
    hide Inv, Drop, ChainIds, Linked, On, Uncovered, Again;
    InvFrame(st, st.(chilled := st.chilled[s := source]));
  }

  lemma WithinFacts(r: Rules, st0: State, st: State, source: Id)
    requires Within(r, st0, st, source)
    ensures Inv(st) && Drop(st.cache, NewIds(st)) == st0.cache && st.oldb == st0.oldb
    ensures st.newb.Keys <= {source} && (source in st.newb ==> st.newb[source] != [])
    ensures st.iced == st0.iced && st.reduced == st0.reduced && st.access == st0.access && st0.nextId <= st.nextId
    ensures st.tritsEnabled == st0.tritsEnabled && st.interactive == st0.interactive
    ensures st.suppressions == st0.suppressions
    ensures forall s | s in st.chilled :: st.chilled[s] == source
    ensures source in st.touched && Uncovered(r, st0, st.hidden) && Again(r, st0, ChainOf(st.newb, source), source)
  {
  }

  lemma SourceFacts(r: Rules, st0: State, st: State, source: Id)
    requires Within(r, st0, st, source)
    ensures st.oldb == st0.oldb && st.iced == st0.iced && st.access == st0.access
    ensures st.interactive == st0.interactive && st.suppressions == st0.suppressions
    ensures source in st.touched && Uncovered(r, st0, st.hidden)
    ensures forall s | s in st.chilled :: st.chilled[s] == source
  {
  }

  /** Concealing the chain of an unfrozen symbol leaves those of frozen ones alone, and so does showing any. */
  lemma ConcealUncovered(r: Rules, st0: State, st: State, source: Id, s: Id)
    requires Within(r, st0, st, source) && !IsFrozen(r, st, s)
    ensures Uncovered(r, st0, Conceal(st, {s}).hidden)
  {
    SourceFacts(r, st0, st, source);
    forall p | IsFrozen(r, st0, p) ensures Conceal(st, {s}).hidden !! ChainIds(st0.oldb, {p}) {
      ChainsApart(st, s, p);
    }
  }

  lemma ChainsApart(st: State, p: Id, q: Id)
    requires Inv(st) && p != q
    ensures ChainIds(st.oldb, {p}) !! ChainIds(st.oldb, {q})
  {
    forall id | id in ChainIds(st.oldb, {p}) ensures id !in ChainIds(st.oldb, {q}) {
      var b :| p in st.oldb && b in st.oldb[p] && b.id == id;
      assert Owns(st.oldb, p, b);
      ChainIdsExact(st.oldb, st.cache, st.nextId, {q}, b);
    }
  }

  lemma FewerUncovered(r: Rules, st0: State, hidden: set<nat>, fewer: set<nat>)
    requires Uncovered(r, st0, hidden) && fewer <= hidden
    ensures Uncovered(r, st0, fewer)
  {
  }

  lemma SplitThenDrop(cs: seq<Binding>, ds: seq<Binding>, b: Binding, ids: set<nat>)
    requires forall c | c in cs || c in ds :: c.id != b.id
    ensures Without(cs + [b] + ds, ids + {b.id}) == Without(cs + ds, ids)
  {
    WithoutAppend(cs + [b], ds, ids + {b.id});
    WithoutAppend(cs, [b], ids + {b.id});
    WithoutAppend(cs, ds, ids);
    WithoutCongruence(cs, ids + {b.id}, ids);
    WithoutCongruence(ds, ids + {b.id}, ids);
  }

  lemma InsertThenDrop(cs: seq<Binding>, b: Binding, sort: Sort, ids: set<nat>)
    requires forall c | c in cs :: c.id != b.id
    ensures Without(Insert(cs, b, sort), ids + {b.id}) == Without(cs, ids)
  {
    var k := InsertPoint(cs, b.value, sort);
    SplitThenDrop(cs[..k], cs[k..], b, ids);
    assert cs == cs[..k] + cs[k..];
  }

  lemma PushIds(m: map<Id, Chain>, source: Id, b: Binding)
    ensures var m' := m[source := [b] + ChainOf(m, source)];
            ChainIds(m', m'.Keys) == ChainIds(m, m.Keys) + {b.id}
  {
    var m' := m[source := [b] + ChainOf(m, source)];
    assert forall c :: c in m'[source] <==> c in ChainOf(m, source) || c == b;
    assert b in m'[source];
    forall id | id in ChainIds(m, m.Keys) ensures id in ChainIds(m', m'.Keys) {
      var p, c :| p in m.Keys && p in m && c in m[p] && c.id == id;
      assert p in m' && c in m'[p];
    }
  }

  /** The new binding is the only new id, and taking the new ids out undoes it. */
  lemma BindThenDrop(cache: map<Id, seq<Binding>>, nextId: nat, s: Id, b: Binding, sort: Sort, ids: set<nat>)
    requires Stacks(cache, nextId) && s in cache && b.id == nextId
    ensures Drop(cache[s := Insert(cache[s], b, sort)], ids + {b.id}) == Drop(cache, ids)
  {
    var cache' := cache[s := Insert(cache[s], b, sort)];
    forall t | t in cache ensures Without(cache'[t], ids + {b.id}) == Without(cache[t], ids) {
      if t == s {
        InsertThenDrop(cache[t], b, sort, ids);
      } else {
        WithoutCongruence(cache[t], ids + {b.id}, ids);
      }
    }
  }

  lemma BindFresh(st: State, s: Id, b: Binding, sort: Sort)
    requires Inv(st) && s in st.cache && b.id == st.nextId
    ensures Drop(st.cache[s := Insert(st.cache[s], b, sort)], NewIds(st) + {b.id}) == Drop(st.cache, NewIds(st))
  {
    BindThenDrop(st.cache, st.nextId, s, b, sort, NewIds(st));
  }

  lemma PushPair(chain: Chain, b: Binding)
    requires PairsDistinct(chain) && !Recorded(chain, b.symbol, b.value)
    ensures PairsDistinct([b] + chain)
  {
  }

  lemma BindOnTop(r: Rules, st0: State, st: State, s: Id, value: Trit, source: Id, sort: Sort)
    requires st.cache.Keys == st0.cache.Keys && OnTop(r, st0, st, source)
    requires s in st.cache && (sort.Plain? || !IsFrozen(r, st0, s))
    ensures var b := Binding(st.nextId, s, value);
            OnTop(r, st0, st.(newb := st.newb[source := [b] + ChainOf(st.newb, source)],
                              cache := st.cache[s := Insert(st.cache[s], b, sort)], nextId := st.nextId + 1), source)
  {
    hide On, Insert, ChainOf;
    var b, chain := Binding(st.nextId, s, value), ChainOf(st.newb, source);
    ChainPushed(st.newb, source, [b] + chain);
    forall t | t in st0.cache && IsFrozen(r, st0, t)
      ensures On([b] + chain, t) + st0.cache[t] == if t == s then Insert(st.cache[s], b, sort) else st.cache[t]
    {
      OnPush(chain, b, t);
      if t == s {
        PlainInsert(st.cache[s], b);
        assert [b] + (On(chain, t) + st0.cache[t]) == [b] + On(chain, t) + st0.cache[t];
      }
    }
  }

  lemma ChainPushed(m: map<Id, Chain>, p: Id, chain: Chain)
    ensures ChainOf(m[p := chain], p) == chain
  {
  }

  lemma PlainInsert(cs: seq<Binding>, b: Binding)
    ensures Insert(cs, b, Plain) == [b] + cs
  {
  }

  lemma OnPush(chain: Chain, b: Binding, s: Id)
    ensures On([b] + chain, s) == if b.symbol == s then [b] + On(chain, s) else On(chain, s)
  {
    assert ([b] + chain)[1..] == chain;
  }

  lemma WithinOnTop(r: Rules, st0: State, st: State, source: Id)
    requires Within(r, st0, st, source)
    ensures st.cache.Keys == st0.cache.Keys && st.iced == st0.iced && OnTop(r, st0, st, source)
  {
  }

  /** Nothing derived is bound during a transaction, if nothing was before. */
  lemma WithinUnbound(r: Rules, st0: State, st: State, source: Id)
    requires Within(r, st0, st, source) && Orderly(r, st0, source)
    ensures Unbound(r, st) && DerivedUnbound(r, ViewOf(st)) && DerivedUnbound(r, ViewOf(st0))
  {
    hide Inv, Drop, OnTop, Again, Uncovered;
  }

  /** The bindings a safe symbol has during a transaction: those it had, below others to the same value. */
  lemma SafeStack(r: Rules, st0: State, st: State, source: Id, t: Id)
    requires Within(r, st0, st, source) && Safe(r, st0, source, t) && t in st0.cache
    ensures IsFrozen(r, st0, t) && t in st.cache
    ensures st.cache[t] == On(ChainOf(st.newb, source), t) + st0.cache[t]
    ensures forall b | b in On(ChainOf(st.newb, source), t) :: b.value == EvalSymbol(r, ViewOf(st0), t)
  {
    hide Inv, Drop, On, EvalSymbol, Visible, Linked;
    OnMembers(ChainOf(st.newb, source), t);
  }

  lemma AnchorUncovered(r: Rules, st0: State, hidden: set<nat>, t: Id, k: nat, p: Id)
    requires Uncovered(r, st0, hidden) && AnchoredAt(r, st0, t, k, p)
    ensures st0.cache[t][k].id !in hidden
  {
    assert st0.cache[t][k].id in ChainIds(st0.oldb, {p}) by { assert p in st0.oldb && st0.cache[t][k] in st0.oldb[p]; }
  }

  lemma AnchoredSteady(r: Rules, st0: State, st: State, source: Id, t: Id, k: nat, p: Id)
    requires Within(r, st0, st, source) && Safe(r, st0, source, t) && AnchoredAt(r, st0, t, k, p)
    ensures EvalSymbol(r, ViewOf(st), t) == EvalSymbol(r, ViewOf(st0), t)
  {
    hide On, EvalSymbol, Visible, Shown, Within, Uncovered, Owns, Lasting;
    SafeStack(r, st0, st, source, t);
    SourceFacts(r, st0, st, source);
    AnchoredValue(r, st0, t, k, p);
    AnchorUncovered(r, st0, st.hidden, t, k, p);
    hide Safe;
    ShownBelow(On(ChainOf(st.newb, source), t), st0.cache[t], st.hidden, k, st0.cache[t][k].value);
    ValueShown(r, st, t);
  }

  /** A safe symbol keeps its value throughout the transaction. */
  lemma {:induction false} SafeSteady(r: Rules, st0: State, st: State, source: Id, t: Id)
    requires Within(r, st0, st, source) && Safe(r, st0, source, t)
    ensures EvalSymbol(r, ViewOf(st), t) == EvalSymbol(r, ViewOf(st0), t)
    decreases t
  {
    hide Within, EvalSymbol, Visible, Shown, DefaultValue, Flatten, Orderly, On, AnchoredAt;
    if Anchored(r, st0, t) {
      var k, p :| AnchoredAt(r, st0, t, k, p);
      AnchoredSteady(r, st0, st, source, t, k, p);
    } else {
      WithinUnbound(r, st0, st, source);
      if r.At(t).default.Some? {
        forall u | u in Flatten(r, r.At(t).default.value)
          ensures EvalSymbol(r, ViewOf(st0), u) == EvalSymbol(r, ViewOf(st), u)
        {
          SafeSteady(r, st0, st, source, u);
        }
      }
      SameDefault(r, ViewOf(st0), ViewOf(st), t);
      DefaultSteady(r, st0, st, source, t);
    }
  }

  lemma DefaultSteady(r: Rules, st0: State, st: State, source: Id, t: Id)
    requires Within(r, st0, st, source) && Safe(r, st0, source, t) && AtDefault(r, st0, t)
    requires DefaultValue(r, ViewOf(st), t) == DefaultValue(r, ViewOf(st0), t)
    ensures EvalSymbol(r, ViewOf(st), t) == EvalSymbol(r, ViewOf(st0), t) == DefaultValue(r, ViewOf(st0), t)
  {
    hide EvalSymbol, Visible, Shown, DefaultValue, On;
    WithinOnTop(r, st0, st, source);
    ValueShown(r, st0, t);
    ValueShown(r, st, t);
    if t in st0.cache {
      SafeStack(r, st0, st, source, t);
      ShownSame(st0.cache[t], {}, DefaultValue(r, ViewOf(st0), t));
      ShownSame(st.cache[t], st.hidden, DefaultValue(r, ViewOf(st0), t));
    }
  }

  lemma AgainStep(r: Rules, st0: State, st: State, source: Id, b: Binding)
    requires Within(r, st0, st, source)
    requires IsFrozen(r, st0, b.symbol) ==>
               Mentioned(r, st0, b.symbol) && EvalSymbol(r, ViewOf(st), b.symbol) == b.value
    ensures Again(r, st0, [b] + ChainOf(st.newb, source), source)
  {
    hide EvalSymbol, Visible, Mentioned, Safe;
    WithinFacts(r, st0, st, source);
    if IsFrozen(r, st0, b.symbol) && Safe(r, st0, source, b.symbol) { SafeSteady(r, st0, st, source, b.symbol); }
    hide Within;
  }

  /** A symbol that is frozen is bound without sorting, to the value it has, because a formula mentions it. */
  ghost predicate Bindable(r: Rules, st0: State, st: State, s: Id, value: Trit, sort: Sort) {
    IsFrozen(r, st0, s) ==> sort.Plain? && Mentioned(r, st0, s) && EvalSymbol(r, ViewOf(st), s) == value
  }

  lemma GrownFrame(st: State, st': State)
    requires st'.newb == st.newb && st'.cache == st.cache && forall t | t in st.touched :: t in st'.touched
    requires forall v | v in st.changesToFrozen :: v in st'.changesToFrozen
    ensures Grown(st, st')
  {
  }

  lemma GrownOn(st: State, mid: State, st': State)
    requires Grown(st, mid) && Grown(mid, st')
    ensures Grown(st, st')
  {
    hide Over, Owns;
  }

  lemma InsertKeepsOrder(cs: seq<Binding>, b: Binding, sort: Sort, i: nat, j: nat)
    requires i < j < |cs|
    ensures exists k, l :: 0 <= k < l < |Insert(cs, b, sort)| &&
                           Insert(cs, b, sort)[k] == cs[i] && Insert(cs, b, sort)[l] == cs[j]
  {
    var at := InsertPoint(cs, b.value, sort);
    var k, l := if i < at then i else i + 1, if j < at then j else j + 1;
    assert Insert(cs, b, sort)[k] == cs[i] && Insert(cs, b, sort)[l] == cs[j];
  }

  /** A binding inserted into a stack does not change the order of the others. */
  lemma BindGrows(st: State, s: Id, value: Trit, source: Id, sort: Sort)
    ensures var res := Bind(st, s, value, source, sort); res.Done? ==> Grown(st, res.value)
  {
    hide Insert;
    if !Recorded(ChainOf(st.newb, source), s, value) && s in st.cache {
      var cs, added := st.cache[s], Binding(st.nextId, s, value);
      forall b, c | Over(st, s, b, c) ensures Over(Bind(st, s, value, source, sort).value, s, b, c) {
        var i, j :| 0 <= i < j < |cs| && cs[i] == b && cs[j] == c;
        InsertKeepsOrder(cs, added, sort, i, j);
      }
    }
  }

  lemma BindWithin(r: Rules, st0: State, st: State, s: Id, value: Trit, source: Id, sort: Sort)
    requires Within(r, st0, st, source) && Fit(r, source, s) && Bindable(r, st0, st, s, value, sort)
    ensures Kept(r, st0, st, source, Bind(st, s, value, source, sort))
    ensures Bind(st, s, value, source, sort).Done? ==> source in Bind(st, s, value, source, sort).value.newb
  {
    hide Inv, Drop, Insert, ChainIds, PairsDistinct, Linked, OnTop, Uncovered, Again, EvalSymbol, Mentioned, Visible,
         Grown, Over;
    var chain := ChainOf(st.newb, source);
    BindGrows(st, s, value, source, sort);
    if !Recorded(chain, s, value) && s in st.cache {
      var b := Binding(st.nextId, s, value);
      BindKeepsInv(st, s, value, source, sort);
      BindFresh(st, s, b, sort);
      BindOnTop(r, st0, st, s, value, source, sort);
      AgainStep(r, st0, st, source, b);
      PushIds(st.newb, source, b);
      PushPair(chain, b);
    }
  }

  // ----- the recursion keeps the transaction

  lemma {:induction false} SetInternalWithin(fuel: nat, r: Rules, st0: State, st: State, s: Id, value: Trit,
                                             source: Id, sort: Sort)
    requires Within(r, st0, st, source) && Fit(r, source, s)
    ensures Kept(r, st0, st, source, SetInternal(fuel, r, st, s, value, source, sort))
    decreases fuel, 0
  {
    hide Within, Inv, Linked, Fit, SetUnfrozen, AllMild, Grown;
    if fuel == 0 { return; }
    var st1 := st.(touched := st.touched + [s]);
    var before := EvalSymbol(r, ViewOf(st1), s);
    SourceFacts(r, st0, st, source);
    FrameWithin(r, st0, st, st1, source);
    GrownFrame(st, st1);
    if before == value && (s == source || IsFrozen(r, st1, s)) { return; }
    if before != value && IsFrozen(r, st1, s) {
      var st2 := st1.(changesToFrozen := st1.changesToFrozen + [FrozenChange(s)]);
      FrameWithin(r, st0, st1, st2, source);
      GrownFrame(st, st2);
      return;
    }
    SetUnfrozenWithin(fuel - 1, r, st0, st1, s, value, source, sort);
    var res := SetUnfrozen(fuel - 1, r, st1, s, value, source, sort);
    if res.Done? { GrownOn(st, st1, res.value); }
  }

  lemma {:induction false} SetUnfrozenWithin(fuel: nat, r: Rules, st0: State, st: State, s: Id, value: Trit,
                                             source: Id, sort: Sort)
    requires Within(r, st0, st, source) && Fit(r, source, s) && !IsFrozen(r, st, s)
    ensures Kept(r, st0, st, source, SetUnfrozen(fuel, r, st, s, value, source, sort))
    ensures var res := SetUnfrozen(fuel, r, st, s, value, source, sort);
            var bound := Bind(st.(chilled := st.chilled[s := source]), s, value, source, sort);
            res.Done? ==> source in res.value.newb && bound.Done? && Grown(bound.value, res.value)
    decreases fuel, 1
  {
    hide Within, Inv, Linked, Fit, Bind, SideEffects, ChainIds, Uncovered, Mentioned, Conceal, Reveal, EvalSymbol,
         AllMild, Grown;
    SourceFacts(r, st0, st, source);
    var chilled := st.(chilled := st.chilled[s := source]);
    ChillWithin(r, st0, st, s, source);
    BindWithin(r, st0, chilled, s, value, source, sort);
    var bound := Bind(chilled, s, value, source, sort);
    if bound.Raised? { return; }
    var hid := Conceal(bound.value, {s});
    ConcealWithin(r, st0, bound.value, source, s);
    SideEffectsWithin(fuel, r, st0, hid, s, value, source, sort);
    var res := SideEffects(fuel, r, hid, s, value, source, sort);
    if res.Raised? { return; }
    RevealWithin(r, st0, bound.value, res.value, source, s);
    var st' := Reveal(res.value, {s});
    SetUnfrozenGrown(st, chilled, bound.value, hid, res.value, st');
    assert source in st'.newb by { GrownKeys(bound.value, st'); }
  }

  lemma SetUnfrozenGrown(a: State, b: State, c: State, d: State, e: State, f: State)
    requires b.newb == a.newb && b.cache == a.cache && b.changesToFrozen == a.changesToFrozen && b.touched == a.touched
    requires Grown(b, c) && Grown(c, d) && Grown(d, e) && Grown(e, f)
    ensures Grown(a, f) && Grown(c, f)
  {
    hide Grown;
    GrownFrame(a, b);
    GrownOn(d, e, f);
    GrownOn(c, d, f);
    GrownOn(b, c, f);
    GrownOn(a, b, f);
  }

  lemma GrownKeys(st: State, st': State)
    requires Grown(st, st')
    ensures st.newb.Keys <= st'.newb.Keys
  {
  }

  lemma ConcealWithin(r: Rules, st0: State, st: State, source: Id, s: Id)
    requires Within(r, st0, st, source) && !IsFrozen(r, st0, s)
    ensures Within(r, st0, Conceal(st, {s}), source) && Grown(st, Conceal(st, {s})) && Conceal(st, {s}).newb == st.newb
    ensures Conceal(st, {s}).hidden == st.hidden + ChainIds(st.oldb, {s}) && Conceal(st, {s}).iced == st.iced
  {
    hide Within;
    SourceFacts(r, st0, st, source);
    ConcealUncovered(r, st0, st, source, s);
    FrameWithin(r, st0, st, Conceal(st, {s}), source);
    GrownFrame(st, Conceal(st, {s}));
  }

  /** What the side effects left hidden is shown again. */
  lemma RevealWithin(r: Rules, st0: State, before: State, st: State, source: Id, s: Id)
    requires Within(r, st0, before, source) && Within(r, st0, st, source)
    requires st.hidden <= before.hidden + ChainIds(before.oldb, {s})
    ensures Within(r, st0, Reveal(st, {s}), source) && Grown(st, Reveal(st, {s})) && Reveal(st, {s}).newb == st.newb
    ensures Reveal(st, {s}).hidden <= before.hidden
  {
    hide Within;
    SourceFacts(r, st0, before, source);
    SourceFacts(r, st0, st, source);
    FewerUncovered(r, st0, st.hidden, Reveal(st, {s}).hidden);
    FrameWithin(r, st0, st, Reveal(st, {s}), source);
    GrownFrame(st, Reveal(st, {s}));
  }

  lemma {:induction false} SideEffectsWithin(fuel: nat, r: Rules, st0: State, st: State, s: Id, value: Trit,
                                             source: Id, sort: Sort)
    requires Within(r, st0, st, source)
    ensures Kept(r, st0, st, source, SideEffects(fuel, r, st, s, value, source, sort))
    decreases fuel, 0
  {
    hide Within, Inv, Linked, Fit, Over, Owns, ForceRelatives, Deduce, SetSiblings, RaiseTrits, AllMild, Watched;
    if fuel == 0 { return; }
    LinksFit(r, source, s);
    var st1 := st;
    if value != N {
      SetSiblingsWithin(fuel - 1, r, st0, st, r.At(s).choicegroup, source);
      var res := SetSiblings(fuel - 1, r, st, r.At(s).choicegroup, source);
      if res.Raised? { return; }
      st1 := res.value;
    }
    var st2 := st1;
    if r.tritTie == Some(s) && value == N {
      RaiseTritsWithin(fuel - 1, r, st0, st1, r.dictionary, source);
      var res := RaiseTrits(fuel - 1, r, st1, r.dictionary, source);
      if res.Raised? { return; }
      st2 := res.value;
    }
    var st3 := st2;
    if r.At(s).Logical() {
      ForceRelativesWithin(fuel - 1, r, st0, st2, s, value, source, sort);
      var res := ForceRelatives(fuel - 1, r, st2, s, value, source, sort);
      if res.Raised? { return; }
      st3 := res.value;
    }
    DeduceWithin(fuel - 1, r, st0, st3, s, source);
  }

  lemma {:induction false} ForceRelativesWithin(fuel: nat, r: Rules, st0: State, st: State, s: Id, value: Trit,
                                                source: Id, sort: Sort)
    requires Within(r, st0, st, source)
    ensures Kept(r, st0, st, source, ForceRelatives(fuel, r, st, s, value, source, sort))
    decreases fuel, 0
  {
    hide Within, Inv, Linked, Fit, Over, Owns, ForceAllAncestors, ForceAllDependents, AllMild;
    if fuel == 0 { return; }
    LinksFit(r, source, s);
    var st1 := st;
    if value != N && !sort.AfterLesser? {
      var above := MenuAncestors(r, s);
      if above.Raised? { return; }
      LinksFit(r, source, r.At(s).menu.value);
      ForceAllAncestorsWithin(fuel - 1, r, st0, st, s, source, value, r.At(s).ancestors + above.value);
      var res := ForceAllAncestors(fuel - 1, r, st, s, source, value, r.At(s).ancestors + above.value);
      if res.Raised? { return; }
      st1 := res.value;
    }
    if value != Y && !sort.AfterGreater? {
      ForceAllDependentsWithin(fuel - 1, r, st0, st1, s, source, value, r.At(s).dependents);
    }
  }

  lemma {:induction false} DeduceWithin(fuel: nat, r: Rules, st0: State, st: State, s: Id, source: Id)
    requires Within(r, st0, st, source)
    ensures Kept(r, st0, st, source, Deduce(fuel, r, st, s, source))
    decreases fuel, 0
  {
    hide Within, Inv, Linked, Fit, Over, Owns, Constrain, ConstrainRounds, Mentioned, Flatten, AllMild, Mild;
    if fuel == 0 { return; }
    SourceFacts(r, st0, st, source);
    DeducedMentioned(r, st0, s);
    var st1 := st;
    if st.interactive && !st.suppressions && r.At(s).visibility.Some? {
      ConstrainWithin(fuel - 1, r, st0, st, r.At(s).visibility.value, source, Y);
      var res := Constrain(fuel - 1, r, st, r.At(s).visibility.value, source, Y);
      if res.Raised? { return; }
      st1 := res.value.0;
    }
    SourceFacts(r, st0, st1, source);
    ConstrainRoundsWithin(fuel - 1, r, st0, st1, Watched(st1, s), source);
  }

  /** What propagation looks at for a symbol mentions only what it is said to mention. */
  lemma DeducedMentioned(r: Rules, st: State, s: Id)
    ensures forall e | e in Watched(st, s) :: AllMentioned(r, st, e) && Meek(r, st, e, Y)
    ensures st.interactive && !st.suppressions && r.At(s).visibility.Some? ==>
              AllMentioned(r, st, r.At(s).visibility.value) && Meek(r, st, r.At(s).visibility.value, Y)
  {
    hide Flatten, Mild;
  }

  lemma SettableFits(r: Rules, source: Id, s: Id)
    ensures !r.At(s).derived ==> Fit(r, source, s)
  {
  }

  lemma LinksFit(r: Rules, source: Id, s: Id)
    ensures forall t | t in r.At(s).ancestors || t in r.At(s).dependents || t in r.At(s).choicegroup ||
                       t in r.At(s).items :: Fit(r, source, t)
  {
  }

  lemma {:induction false} SetSiblingsWithin(fuel: nat, r: Rules, st0: State, st: State, siblings: seq<Id>, source: Id)
    requires Within(r, st0, st, source) && forall t | t in siblings :: Fit(r, source, t)
    ensures Kept(r, st0, st, source, SetSiblings(fuel, r, st, siblings, source))
    decreases fuel, |siblings|
  {
    hide Within, Inv, Linked, Fit, Over, Owns, SetInternal, AllMild;
    if siblings == [] {
    } else {
      SetInternalWithin(fuel, r, st0, st, siblings[0], N, source, Plain);
      var res := SetInternal(fuel, r, st, siblings[0], N, source, Plain);
      if res.Done? { SetSiblingsWithin(fuel, r, st0, res.value, siblings[1..], source); }
    }
  }

  lemma {:induction false} RaiseTritsWithin(fuel: nat, r: Rules, st0: State, st: State, entries: seq<Id>, source: Id)
    requires Within(r, st0, st, source)
    ensures Kept(r, st0, st, source, RaiseTrits(fuel, r, st, entries, source))
    decreases fuel, |entries|
  {
    hide Within, Inv, Linked, Fit, Over, Owns, SetInternal, AllMild;
    if entries == [] {
    } else {
      var s := entries[0];
      SettableFits(r, source, s);
      if r.At(s).kind.TritKind? && !r.At(s).derived && EvalSymbol(r, ViewOf(st), s) == M {
        SetInternalWithin(fuel, r, st0, st, s, Y, source, Plain);
        var res := SetInternal(fuel, r, st, s, Y, source, Plain);
        if res.Done? { RaiseTritsWithin(fuel, r, st0, res.value, entries[1..], source); }
      } else {
        RaiseTritsWithin(fuel, r, st0, st, entries[1..], source);
      }
    }
  }

  lemma {:induction false} ForceAncestorsWithin(fuel: nat, r: Rules, st0: State, st: State, dependent: Id, source: Id,
                                                value: Trit, ancestor: Id)
    requires Within(r, st0, st, source) && Fit(r, source, ancestor)
    ensures Kept(r, st0, st, source, ForceAncestors(fuel, r, st, dependent, source, value, ancestor))
    decreases fuel, 0
  {
    hide Within, Inv, Linked, Fit, Over, Owns, SetInternal, ForceAllAncestors, AllMild;
    LinksFit(r, source, ancestor);
    if fuel != 0 {
      var st1 := st;
      if r.At(dependent).Logical() && r.At(ancestor).Logical() && value != N {
        var v := AncestorValue(r, st, dependent, value, ancestor);
        SetInternalWithin(fuel - 1, r, st0, st, ancestor, v, source, AfterGreater);
        var res := SetInternal(fuel - 1, r, st, ancestor, v, source, AfterGreater);
        if res.Raised? { return; }
        st1 := res.value;
      }
      ForceAllAncestorsWithin(fuel - 1, r, st0, st1, dependent, source, value, r.At(ancestor).ancestors);
      var res := ForceAllAncestors(fuel - 1, r, st1, dependent, source, value, r.At(ancestor).ancestors);
      var above := MenuAncestors(r, ancestor);
      if res.Done? && above.Done? {
        LinksFit(r, source, r.At(ancestor).menu.value);
        ForceAllAncestorsWithin(fuel - 1, r, st0, res.value, dependent, source, value, above.value);
      }
    }
  }

  lemma {:induction false} ForceAllAncestorsWithin(fuel: nat, r: Rules, st0: State, st: State, dependent: Id,
                                                   source: Id, value: Trit, ancestors: seq<Id>)
    requires Within(r, st0, st, source) && forall t | t in ancestors :: Fit(r, source, t)
    ensures Kept(r, st0, st, source, ForceAllAncestors(fuel, r, st, dependent, source, value, ancestors))
    decreases fuel, |ancestors|
  {
    hide Within, Inv, Linked, Fit, Over, Owns, ForceAncestors, AllMild;
    if ancestors == [] {
    } else {
      ForceAncestorsWithin(fuel, r, st0, st, dependent, source, value, ancestors[0]);
      var res := ForceAncestors(fuel, r, st, dependent, source, value, ancestors[0]);
      if res.Done? {
        ForceAllAncestorsWithin(fuel, r, st0, res.value, dependent, source, value, ancestors[1..]);
      }
    }
  }

  lemma {:induction false} ForceDependentsWithin(fuel: nat, r: Rules, st0: State, st: State, guard: Id, source: Id,
                                                 value: Trit, dependent: Id)
    requires Within(r, st0, st, source) && Fit(r, source, dependent)
    ensures Kept(r, st0, st, source, ForceDependents(fuel, r, st, guard, source, value, dependent))
    decreases fuel, 0
  {
    hide Within, Inv, Linked, Fit, Over, Owns, SetInternal, ForceAllDependents, AllMild;
    LinksFit(r, source, dependent);
    if fuel != 0 {
      var current := EvalSymbol(r, ViewOf(st), dependent);
      var st1 := st;
      if r.At(guard).Logical() && r.At(dependent).Logical() && value.Less(current) {
        var v := DependentValue(r, st, guard, value, dependent, current);
        SetInternalWithin(fuel - 1, r, st0, st, dependent, v, source, AfterLesser);
        var res := SetInternal(fuel - 1, r, st, dependent, v, source, AfterLesser);
        if res.Raised? { return; }
        st1 := res.value;
      }
      var below := if r.At(dependent).items != [] then r.At(dependent).items else r.At(dependent).dependents;
      ForceAllDependentsWithin(fuel - 1, r, st0, st1, guard, source, value, below);
    }
  }

  lemma {:induction false} ForceAllDependentsWithin(fuel: nat, r: Rules, st0: State, st: State, guard: Id, source: Id,
                                                    value: Trit, dependents: seq<Id>)
    requires Within(r, st0, st, source) && forall t | t in dependents :: Fit(r, source, t)
    ensures Kept(r, st0, st, source, ForceAllDependents(fuel, r, st, guard, source, value, dependents))
    decreases fuel, |dependents|
  {
    hide Within, Inv, Linked, Fit, Over, Owns, ForceDependents, AllMild;
    if dependents == [] {
    } else {
      ForceDependentsWithin(fuel, r, st0, st, guard, source, value, dependents[0]);
      var res := ForceDependents(fuel, r, st, guard, source, value, dependents[0]);
      if res.Done? {
        ForceAllDependentsWithin(fuel, r, st0, res.value, guard, source, value, dependents[1..]);
      }
    }
  }

  /** If all that propagation looks at is mild, so is forcing e to the value. */
  ghost predicate Meek(r: Rules, st0: State, e: Expr, fixed: Trit) { AllMild(r, st0) ==> Mild(r, fixed == N, e) }

  lemma {:induction false} ConstrainWithin(fuel: nat, r: Rules, st0: State, st: State, wff: Expr, source: Id,
                                           fixed: Trit)
    requires Within(r, st0, st, source) && AllMentioned(r, st0, wff) && Meek(r, st0, wff, fixed)
    ensures KeptWith(r, st0, st, source, Constrain(fuel, r, st, wff, source, fixed))
    decreases fuel, 0
  {
    hide Within, Inv, Linked, Fit, Over, Owns, ConstrainSymbol, Relate, Mentioned, AllMild;
    if fuel == 0 { return; }
    match wff
    case Ref(s) => ConstrainSymbolWithin(fuel - 1, r, st0, st, s, source, fixed);
    case Cond(g, a, b) =>
      ConstrainWithin(fuel - 1, r, st0, st, if Eval(r, ViewOf(st), g) != N then a else b, source, fixed);
    case Bin(op, a, b) =>
      if op.Implies? && fixed == Y {
        ConstrainWithin(fuel - 1, r, st0, st, b, source, fixed);
      } else if (op.And? && fixed == Y) || (op.Or? && fixed == N) {
        ConstrainWithin(fuel - 1, r, st0, st, a, source, fixed);
        var res := Constrain(fuel - 1, r, st, a, source, fixed);
        if res.Done? { ConstrainWithin(fuel - 1, r, st0, res.value.0, b, source, fixed); }
      } else if op.Relational() && Comparable(r, a) && Comparable(r, b) {
        RelateWithin(fuel - 1, r, st0, st, if fixed == N then Converse(op) else op, a, b, source);
      }
    case _ =>
  }

  lemma {:induction false} ConstrainSymbolWithin(fuel: nat, r: Rules, st0: State, st: State, s: Id, source: Id,
                                                 fixed: Trit)
    requires Within(r, st0, st, source) && AllMentioned(r, st0, Ref(s)) && Meek(r, st0, Ref(s), fixed)
    ensures KeptWith(r, st0, st, source, ConstrainSymbol(fuel, r, st, s, source, fixed))
    decreases fuel, 0
  {
    hide Within, Inv, Linked, Fit, Over, Owns, Constrain, SetInternal, Bind, Mentioned, AllMild;
    SettableFits(r, source, s);
    if fuel == 0 { return; }
    if r.At(s).derived {
      if r.At(s).default.Some? { ConstrainWithin(fuel - 1, r, st0, st, r.At(s).default.value, source, fixed); }
    } else if EvalSymbol(r, ViewOf(st), s) == fixed {
      BindWithin(r, st0, st, s, fixed, source, Plain);
    } else {
      SetInternalWithin(fuel - 1, r, st0, st, s, fixed, source, Plain);
    }
  }

  lemma {:induction false} RelateWithin(fuel: nat, r: Rules, st0: State, st: State, op: Op, a: Expr, b: Expr,
                                        source: Id)
    requires Within(r, st0, st, source) && AllMentioned(r, st0, a) && AllMentioned(r, st0, b)
    requires Meek(r, st0, a, N) && Meek(r, st0, a, Y) && Meek(r, st0, b, N) && Meek(r, st0, b, Y)
    requires AllMild(r, st0) ==> MildRelation(r, op, a, b)
    ensures KeptWith(r, st0, st, source, Relate(fuel, r, st, op, a, b, source))
    decreases fuel, 0
  {
    hide Within, Inv, Linked, Fit, Over, Owns, Constrain, Mentioned, AllMild;
    if fuel != 0 {
      ConstrainWithin(fuel - 1, r, st0, st, a, source, Eval(r, ViewOf(st), b));
      ConstrainWithin(fuel - 1, r, st0, st, b, source, Eval(r, ViewOf(st), a));
    }
  }

  lemma {:induction false} ConstrainAllWithin(fuel: nat, r: Rules, st0: State, st: State, wffs: seq<Expr>, source: Id)
    requires Within(r, st0, st, source) && forall e | e in wffs :: AllMentioned(r, st0, e) && Meek(r, st0, e, Y)
    ensures KeptWith(r, st0, st, source, ConstrainAll(fuel, r, st, wffs, source))
    decreases fuel, |wffs|
  {
    hide Within, Inv, Linked, Fit, Over, Owns, Constrain, AllMentioned, AllMild, Mild;
    if wffs == [] {
    } else {
      ConstrainWithin(fuel, r, st0, st, wffs[0], source, Y);
      var res := Constrain(fuel, r, st, wffs[0], source, Y);
      if res.Done? { ConstrainAllWithin(fuel, r, st0, res.value.0, wffs[1..], source); }
    }
  }

  lemma {:induction false} ConstrainRoundsWithin(fuel: nat, r: Rules, st0: State, st: State, wffs: seq<Expr>,
                                                 source: Id)
    requires Within(r, st0, st, source) && forall e | e in wffs :: AllMentioned(r, st0, e) && Meek(r, st0, e, Y)
    ensures Kept(r, st0, st, source, ConstrainRounds(fuel, r, st, wffs, source))
    decreases fuel, 0
  {
    hide Within, Inv, Linked, Fit, Over, Owns, ConstrainAll, AllMentioned, AllMild, Mild;
    if fuel == 0 {
    } else {
      ConstrainAllWithin(fuel - 1, r, st0, st, wffs, source);
      var res := ConstrainAll(fuel - 1, r, st, wffs, source);
      if res.Done? && res.value.1 != 0 { ConstrainRoundsWithin(fuel - 1, r, st0, res.value.0, wffs, source); }
    }
  }
}
