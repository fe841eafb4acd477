/** Whole settings and whole runs (contrib/cml2/cmlsystem.py, set_symbol, sanecheck, __commit, __rollback). */
module Sessions {
  import opened Options
  import opened Rulebase
  import opened PartialEval
  import opened Journal
  import opened Propagation
  import opened FrozenSymbols
  import opened Transactions

  /** The numbers of the formulas that evaluate to n. */
  function Failures(r: Rules, v: View, formulas: seq<Expr>): seq<Violation> {
    if formulas == [] then []
    else
      var k := |formulas| - 1;
      Failures(r, v, formulas[..k]) + if Eval(r, v, formulas[k]) == N then [Unmet(k)] else []
  }

  /** The violations go onto the list of refused changes itself, as the source's aliasing has it. */
  function SaneCheck(r: Rules, st: State): State {
    st.(changesToFrozen := st.changesToFrozen + Failures(r, ViewOf(st), st.reduced))
  }

  /** Freezing one alternative of a choices menu freezes them all. */
  function Freeze(r: Rules, iced: set<Id>, s: Id): set<Id> {
    iced + {s} +
    match r.At(s).menu
    case Some(m) => if r.At(m).kind.ChoicesKind? then {m} + (set t | t in r.At(m).items) else {}
    case None => {}
  }

  function FreezeAll(r: Rules, iced: set<Id>, touched: seq<Id>): set<Id>
    decreases |touched|
  {
    if touched == [] then iced else FreezeAll(r, Freeze(r, iced, touched[0]), touched[1..])
  }

  function FrozenSet(r: Rules, st: State): set<Id> {
    st.iced + (set s: Id | s < |r.symbols| && r.symbols[s].kind.MessageKind?)
  }

  function Simplify(r: Rules, fixed: set<Id>, v: View, e: Expr): Result<Expr> {
    match EvalFrozen(r, fixed, v, e)
    case Unknown => Done(e)
    case Const(t) => Done(Lit(t))
    case Truth => Done(One)
    case Fault => Raised(NotATrit)
  }

  function SimplifyAll(r: Rules, fixed: set<Id>, v: View, formulas: seq<Expr>): (res: Result<seq<Expr>>)
    ensures res.Done? ==> |res.value| == |formulas|
  {
    if formulas == [] then Done([]) else
    var e :- Simplify(r, fixed, v, formulas[0]);
    var rest :- SimplifyAll(r, fixed, v, formulas[1..]);
    Done([e] + rest)
  }

  function FreezeTouched(r: Rules, st: State): Result<State> {
    var st := st.(iced := FreezeAll(r, st.iced, st.touched), touched := []);
    var reduced :- SimplifyAll(r, FrozenSet(r, st) + st.chilled.Keys, ViewOf(st), st.reduced);
    Done(st.(reduced := reduced, access := Access(r, reduced)))
  }

  /** A plain commit lets the trit tie switch trits on or off. */
  function Settle(r: Rules, st: State): State {
    st.(touched := [],
        tritsEnabled := if r.tritTie.Some? && r.tritTie.value in st.touched
                        then EvalSymbol(r, ViewOf(st), r.tritTie.value) != N else st.tritsEnabled)
  }

  function Commit(r: Rules, st: State, freeze: bool): Result<State> {
    var st :- if freeze then FreezeTouched(r, st) else Done(Settle(r, st));
    var undo :- CommitSet(r, st.newb.Keys);
    Done(BindCommit(st, undo))
  }

  /** The state in which set_symbol makes its decision, and the set it is about to undo. */
  function Proposal(fuel: nat, r: Rules, st: State, s: Id, value: Trit): Result<(State, set<Id>)> {
    var st :- SetInternal(fuel, r, st.(changesToFrozen := []), s, value, s, Plain);
    var st := st.(chilled := map[]);
    var undo :- CommitSet(r, st.newb.Keys);
    Done((st, undo))
  }

  /** Conceals what the commit would undo, checks, and commits or puts everything back. */
  function Decide(r: Rules, st: State, undo: set<Id>, freeze: bool): Result<(State, bool)> {
    var st := SaneCheck(r, Conceal(st, undo));
    if st.changesToFrozen == [] then
      var st :- Commit(r, st, freeze);
      Done((st, true))
    else
      Done((Rollback(Reveal(st, undo)), false))
  }

  function SetSymbol(fuel: nat, r: Rules, st: State, s: Id, value: Trit, freeze: bool): Result<(State, bool)> {
    var (st, undo) :- Proposal(fuel, r, st, s, value);
    Decide(r, st, undo, freeze)
  }

  // ----- between calls

  ghost predicate Quiescent(st: State) {
    Inv(st) && st.newb == map[] && st.chilled == map[] && st.touched == [] && st.hidden == {}
  }

  ghost predicate Holds(r: Rules, v: View, formulas: seq<Expr>) { forall e | e in formulas :: Eval(r, v, e) != N }

  lemma {:induction false} FailuresExact(r: Rules, v: View, formulas: seq<Expr>)
    ensures forall k: nat :: Unmet(k) in Failures(r, v, formulas) <==> k < |formulas| && Eval(r, v, formulas[k]) == N
    ensures Failures(r, v, formulas) == [] <==> Holds(r, v, formulas)
  {
    hide Eval, Holds, Failures;
    if formulas == [] {
      NoFailures(r, v);
    } else {
      var k := |formulas| - 1;
      var front, e := formulas[..k], formulas[k];
      assert formulas == front + [e];
      FailuresExact(r, v, front);
      LastFails(r, v, front, e);
      LastHolds(r, v, front, e);
    }
  }

  lemma NoFailures(r: Rules, v: View)
    ensures Failures(r, v, []) == [] && Holds(r, v, [])
  {
  }

  lemma LastFails(r: Rules, v: View, formulas: seq<Expr>, e: Expr)
    ensures Failures(r, v, formulas + [e]) ==
            Failures(r, v, formulas) + if Eval(r, v, e) == N then [Unmet(|formulas|)] else []
  {
    hide Eval;
    assert (formulas + [e])[..|formulas|] == formulas;
  }

  lemma LastHolds(r: Rules, v: View, formulas: seq<Expr>, e: Expr)
    ensures Holds(r, v, formulas + [e]) <==> Holds(r, v, formulas) && Eval(r, v, e) != N
  {
    hide Eval;
    assert e in formulas + [e];
  }

  lemma StartWithin(r: Rules, st: State, s: Id)
    requires Quiescent(st)
    ensures Within(r, st, st.(changesToFrozen := [], touched := [s]), s)
  {
    hide On, Linked, Stacks, Family;
    var st' := st.(changesToFrozen := [], touched := [s]);
    assert NewIds(st) == {};
    DropNone(st.cache);
    InvFrame(st, st');
    NothingOn(r, st, st', s);
  }

  lemma NothingOn(r: Rules, st: State, st': State, s: Id)
    requires st.newb == map[] && st'.newb == map[] && st'.cache == st.cache
    ensures OnTop(r, st, st', s) && Again(r, st, ChainOf(st'.newb, s), s)
  {
  }

  lemma DropNone(cache: map<Id, seq<Binding>>)
    ensures Drop(cache, {}) == cache
  {
    forall s | s in cache ensures Without(cache[s], {}) == cache[s] { WithoutNone(cache[s], {}); }
  }

  /** A call does nothing to the journal if its symbol is frozen or has the value already. */
  predicate Idle(r: Rules, st: State, s: Id, value: Trit) {
    IsFrozen(r, st, s) || EvalSymbol(r, ViewOf(st), s) == value
  }

  /** Propagation from a quiescent state ends inside the transaction. */
  lemma SourceWithin(fuel: nat, r: Rules, st: State, s: Id, value: Trit)
    requires Quiescent(st)
    ensures match SetInternal(fuel, r, st.(changesToFrozen := []), s, value, s, Plain)
            case Done(st') =>
              && Within(r, st, st', s) && st'.hidden == {}
              && (if Idle(r, st, s, value) then st'.newb == map[] else s in st'.newb)
            case Raised(e) => e != Unsatisfiable && (AllMild(r, st) ==> !Slip(e))
  {
    hide Inv, Within, SetUnfrozen, EvalSymbol, Visible, Linked, Mentioned, AllMild;
    if fuel == 0 { return; }
    var st1 := st.(changesToFrozen := [], touched := [s]);
    StartWithin(r, st, s);
    assert st.touched + [s] == [s] && ViewOf(st1) == ViewOf(st);
    if EvalSymbol(r, ViewOf(st), s) == value { return; }
    if IsFrozen(r, st, s) {
      SourceFacts(r, st, st1, s);
      assert st1.changesToFrozen + [FrozenChange(s)] == [FrozenChange(s)];
      FrameWithin(r, st, st1, st1.(changesToFrozen := [FrozenChange(s)]), s);
      return;
    }
    SetUnfrozenWithin(fuel - 1, r, st, st1, s, value, s, Plain);
  }

  /** The proposal is inside the transaction, with nothing hidden; what it undoes is known from the call. */
  lemma ProposalWithin(fuel: nat, r: Rules, st: State, s: Id, value: Trit)
    requires Quiescent(st)
    ensures match Proposal(fuel, r, st, s, value)
            case Done((st', undo)) =>
              && Within(r, st, st', s) && st'.hidden == {} && st'.chilled == map[]
              && undo == (if st'.newb == map[] then {} else set t | t in Undone(r, s))
              && (st'.newb == map[] <==> Idle(r, st, s, value))
            case Raised(e) => e != Unsatisfiable && (AllMild(r, st) ==> !Slip(e))
  {
    hide Inv, SetInternal, EvalSymbol, Visible, IsFrozen, Again, Uncovered, OnTop, Drop, AllMild;
    SourceWithin(fuel, r, st, s, value);
    var res := SetInternal(fuel, r, st.(changesToFrozen := []), s, value, s, Plain);
    if res.Done? {
      var st2 := res.value.(chilled := map[]);
      UnchillWithin(r, st, res.value, s);
      assert st2.newb.Keys <= {s};
      assert s !in st2.newb ==> st2.newb == map[];
    }
  }

  lemma UnchillWithin(r: Rules, st0: State, st: State, source: Id)
    requires Within(r, st0, st, source)
    ensures Within(r, st0, st.(chilled := map[]), source)
  {
    hide Inv, Drop, ChainIds, Linked, On, Uncovered, Again;
    InvFrame(st, st.(chilled := map[]));
  }

  lemma LaterQuiescent(st: State, st': State)
    requires Quiescent(st) && st.nextId <= st'.nextId
    requires st' == st.(changesToFrozen := st'.changesToFrozen, nextId := st'.nextId)
    ensures Quiescent(st')
  {
    InvFrame(st, st');
  }

  lemma RollbackRestores(r: Rules, st0: State, st: State, source: Id)
    requires Within(r, st0, st, source) && Quiescent(st0)
    requires st.hidden == {} && st.chilled == map[]
    ensures Rollback(st) == st0.(changesToFrozen := st.changesToFrozen, nextId := st.nextId)
    ensures Quiescent(Rollback(st))
  {
    WithinFacts(r, st0, st, source);
    hide Within, Inv, Drop, ChainIds;
    assert Rollback(st).newb == map[];
    assert Rollback(st).cache == st0.cache;
    LaterQuiescent(st0, st0.(changesToFrozen := st.changesToFrozen, nextId := st.nextId));
  }

  lemma RejectRestores(r: Rules, st0: State, st: State, source: Id, undo: set<Id>, freeze: bool)
    requires Within(r, st0, st, source) && Quiescent(st0) && st.hidden == {} && st.chilled == map[]
    ensures match Decide(r, st, undo, freeze)
            case Done((st', accepted)) =>
              !accepted ==> st' == st0.(changesToFrozen := st'.changesToFrozen, nextId := st'.nextId) &&
                            st'.changesToFrozen != [] && Quiescent(st')
            case Raised(_) => true
  {
    hide Inv, Within, Stacks, Family, Quiescent, Commit, ChainIds, Failures, Rollback;
    var checked := SaneCheck(r, Conceal(st, undo));
    var revealed := Reveal(checked, undo);
    assert revealed.hidden == {};
    SourceFacts(r, st0, st, source);
    FewerUncovered(r, st0, st.hidden, {});
    FrameWithin(r, st0, st, revealed, source);
    RollbackRestores(r, st0, revealed, source);
  }

  /** A rejected setting leaves every stack, chain, visible flag and formula as it was. */
  lemma RejectedIsUndone(fuel: nat, r: Rules, st: State, s: Id, value: Trit, freeze: bool)
    requires Quiescent(st)
    ensures match SetSymbol(fuel, r, st, s, value, freeze)
            case Done((st', accepted)) =>
              !accepted ==> st' == st.(changesToFrozen := st'.changesToFrozen, nextId := st'.nextId) &&
                            st'.changesToFrozen != [] && Quiescent(st')
            case Raised(_) => true
  {
    hide Quiescent, Within, Proposal, Decide;
    ProposalWithin(fuel, r, st, s, value);
    var proposal := Proposal(fuel, r, st, s, value);
    if proposal.Done? {
      RejectRestores(r, st, proposal.value.0, s, proposal.value.1, freeze);
    }
  }

  ghost predicate SameJournal(a: State, b: State) {
    a.cache == b.cache && a.newb == b.newb && a.oldb == b.oldb && a.hidden == b.hidden && a.nextId == b.nextId
  }

  lemma SameJournalInv(a: State, b: State)
    requires SameJournal(a, b) && Inv(a)
    ensures Inv(b)
  {
    InvFrame(a, b);
  }

  lemma CommitClears(st: State, undo: set<Id>)
    ensures BindCommit(st, undo).newb == map[] && (st.hidden == {} ==> BindCommit(st, undo).hidden == {})
  {
  }

  /** A commit changes the journal by BindCommit alone, whether or not it freezes. */
  lemma CommitJournal(r: Rules, prop: State, undo: set<Id>, freeze: bool)
    requires prop.hidden == {}
    requires CommitSet(r, prop.newb.Keys) == Done(undo)
    ensures var res := Commit(r, SaneCheck(r, Conceal(prop, undo)), freeze);
            res.Done? ==> SameJournal(res.value, BindCommit(prop, undo)) && res.value.touched == [] &&
                          res.value.chilled == prop.chilled
  {
    var checked := SaneCheck(r, Conceal(prop, undo));
    var res := if freeze then FreezeTouched(r, checked) else Done(Settle(r, checked));
    if res.Done? {
      hide Drop, ChainIds, FreezeTouched, Settle, SimplifyAll;
      assert BindCommit(res.value, undo).hidden == {};
    }
  }

  /**
   * set_symbol accepts exactly when no frozen symbol was to be raised and every formula holds in the state that
   * committing produces; and accepting produces that state.
   */
  lemma DecisionIsAboutTheCommit(fuel: nat, r: Rules, st: State, s: Id, value: Trit, freeze: bool)
    requires Quiescent(st)
    requires SetSymbol(fuel, r, st, s, value, freeze).Done?
    ensures Proposal(fuel, r, st, s, value).Done?
    ensures var (prop, undo) := Proposal(fuel, r, st, s, value).value;
            var committed := BindCommit(prop, undo);
            var (st', accepted) := SetSymbol(fuel, r, st, s, value, freeze).value;
            && (accepted <==> prop.changesToFrozen == [] && Holds(r, ViewOf(committed), st.reduced))
            && (accepted ==> SameJournal(st', committed) && st'.touched == [] && st'.chilled == map[])
  {
    hide Inv, Within;
    ProposalWithin(fuel, r, st, s, value);
    var (prop, undo) := Proposal(fuel, r, st, s, value).value;
    ProposalFormulas(r, st, prop, s);
    ConcealIsCommit(prop, undo);
    FailuresExact(r, ViewOf(Conceal(prop, undo)), st.reduced);
    CommitJournal(r, prop, undo, freeze);
    hide Holds, BindCommit, Failures, Commit;
  }

  lemma ProposalFormulas(r: Rules, st0: State, st: State, source: Id)
    requires Within(r, st0, st, source)
    ensures st.reduced == st0.reduced
  {
  }

  /** A symbol in a choices menu is one of the menu's items. */
  ghost predicate MenuMatches(r: Rules, s: Id) { s in Undone(r, s) }

  lemma ProposalIsNew(r: Rules, st0: State, st: State, source: Id, b: Binding)
    requires Within(r, st0, st, source) && Owns(st.newb, source, b)
    ensures !Stacked(st0.cache, b) && Stacked(st.cache, b)
  {
    assert source in st.newb.Keys && b in st.newb[source];
    assert b.id in NewIds(st);
    DropMembers(st.cache, NewIds(st));
  }

  lemma InvParts(st: State)
    requires Inv(st)
    ensures Stacks(st.cache, st.nextId) && Family(st.newb, st.cache) && Family(st.oldb, st.cache)
    ensures forall p, b | Owns(st.newb, p, b) :: Stacked(st.cache, b) && forall q :: !Owns(st.oldb, q, b)
  {
  }

  lemma NewIdsExact(st: State, source: Id, b: Binding)
    requires Inv(st) && st.newb.Keys <= {source}
    ensures Stacked(st.cache, b) && b.id in NewIds(st) <==> Owns(st.newb, source, b)
  {
    InvParts(st);
    hide Inv;
    if Stacked(st.cache, b) { ChainIdsExact(st.newb, st.cache, st.nextId, st.newb.Keys, b); }
  }

  /** Which bindings a commit leaves stacked: those not undone, and the new ones. */
  lemma CommitStacks(r: Rules, st0: State, st: State, source: Id, undo: set<Id>, b: Binding)
    requires Within(r, st0, st, source)
    ensures Stacked(BindCommit(st, undo).cache, b) <==>
            (Stacked(st0.cache, b) && !(exists p :: p in undo && Owns(st0.oldb, p, b))) || Owns(st.newb, source, b)
  {
    WithinFacts(r, st0, st, source);
    InvParts(st);
    NewIdsExact(st, source, b);
    DropMembers(st.cache, ChainIds(st.oldb, undo));
    DropMembers(st.cache, NewIds(st));
    if Stacked(st.cache, b) { ChainIdsExact(st.oldb, st.cache, st.nextId, undo, b); }
    hide Within, Inv, Stacks, Family, Drop, NewIds, ChainIds;
  }

  /** Which bindings hang on which primary after a commit. */
  lemma CommitChains(r: Rules, st0: State, st: State, source: Id, undo: set<Id>, p: Id, b: Binding)
    requires Within(r, st0, st, source) && (st.newb != map[] ==> source in undo)
    ensures Owns(BindCommit(st, undo).oldb, p, b) <==>
            (p !in undo && Owns(st0.oldb, p, b)) || (p == source && Owns(st.newb, p, b))
  {
  }

  /**
   * After an accepted setting the journal is a partition again. Of the old bindings exactly those hanging on the
   * set symbol or on its choices-menu siblings are gone; what is new hangs on the set symbol.
   */
  lemma AcceptedCommit(fuel: nat, r: Rules, st: State, s: Id, value: Trit, freeze: bool)
    requires Quiescent(st) && MenuMatches(r, s)
    requires SetSymbol(fuel, r, st, s, value, freeze).Done? && SetSymbol(fuel, r, st, s, value, freeze).value.1
    ensures Proposal(fuel, r, st, s, value).Done?
    ensures var st' := SetSymbol(fuel, r, st, s, value, freeze).value.0;
            var (prop, undo) := Proposal(fuel, r, st, s, value).value;
            var made := ChainOf(prop.newb, s);
            && Quiescent(st')
            && undo == (if made == [] then {} else set t | t in Undone(r, s))
            && (forall b | b in made :: !Stacked(st.cache, b))
            && (forall b :: Stacked(st'.cache, b) <==>
                            (Stacked(st.cache, b) && !(exists p :: p in undo && Owns(st.oldb, p, b))) || b in made)
            && (forall p, b :: Owns(st'.oldb, p, b) <==>
                               (p !in undo && Owns(st.oldb, p, b)) || (p == s && b in made))
  {
    hide SetSymbol, Proposal, Within, Inv, BindCommit, Holds, Drop;
    DecisionIsAboutTheCommit(fuel, r, st, s, value, freeze);
    ProposalWithin(fuel, r, st, s, value);
    var st' := SetSymbol(fuel, r, st, s, value, freeze).value.0;
    var (prop, undo) := Proposal(fuel, r, st, s, value).value;
    var committed := BindCommit(prop, undo);
    var made := ChainOf(prop.newb, s);
    WithinFacts(r, st, prop, s);
    BindCommitKeepsInv(prop, undo);
    SameJournalInv(committed, st');
    CommitClears(prop, undo);
    forall b | b in made ensures !Stacked(st.cache, b) {
      ProposalIsNew(r, st, prop, s, b);
    }
    forall b ensures Stacked(st'.cache, b) <==>
                     (Stacked(st.cache, b) && !(exists p :: p in undo && Owns(st.oldb, p, b))) || b in made
    {
      CommitStacks(r, st, prop, s, undo, b);
    }
    forall p, b ensures Owns(st'.oldb, p, b) <==>
                        (p !in undo && Owns(st.oldb, p, b)) || (p == s && b in made)
    {
      CommitChains(r, st, prop, s, undo, p, b);
    }
  }

  // ----- frozen symbols

  /** The bindings that stay with a frozen symbol when a proposal is committed. */
  lemma FrozenStack(r: Rules, st0: State, st: State, source: Id, undo: set<Id>, t: Id)
    requires Within(r, st0, st, source) && t in st0.cache && IsFrozen(r, st0, t)
    ensures t in BindCommit(st, undo).cache
    ensures BindCommit(st, undo).cache[t] ==
            On(ChainOf(st.newb, source), t) + Without(st0.cache[t], ChainIds(st0.oldb, undo))
  {
    hide On, Drop, Without;
    WithinOnTop(r, st0, st, source);
    WithinFacts(r, st0, st, source);
    InvParts(st);
    hide Within, Inv;
    var added, ids := On(ChainOf(st.newb, source), t), ChainIds(st.oldb, undo);
    OnMembers(ChainOf(st.newb, source), t);
    forall b | b in added ensures b.id !in ids {
      assert Owns(st.newb, source, b);
      ChainIdsExact(st.oldb, st.cache, st.nextId, undo, b);
    }
    WithoutNone(added, ids);
    WithoutAppend(added, st0.cache[t], ids);
    DropAt(st.cache, ids, t);
  }

  lemma DropAt(cache: map<Id, seq<Binding>>, ids: set<nat>, t: Id)
    requires t in cache
    ensures t in Drop(cache, ids) && Drop(cache, ids)[t] == Without(cache[t], ids)
  {
  }

  lemma ShownOnTop(added: seq<Binding>, below: seq<Binding>)
    ensures Shown(added + below, {}) == if added != [] then Some(added[0].value) else Shown(below, {})
  {
    if added == [] {
      assert added + below == below;
    } else {
      assert (added + below)[0] == added[0];
    }
  }

  lemma {:induction false} OnNone(chain: Chain, s: Id)
    requires forall b | b in chain :: b.symbol != s
    ensures On(chain, s) == []
  {
    if chain == [] {
    } else {
      OnNone(chain[1..], s);
    }
  }

  /** A frozen symbol that no formula in play mentions is not bound again. */
  lemma NotAgain(r: Rules, st0: State, st: State, source: Id, t: Id)
    requires Within(r, st0, st, source) && IsFrozen(r, st0, t) && !Mentioned(r, st0, t)
    ensures On(ChainOf(st.newb, source), t) == []
  {
    hide On, Mentioned, OnTop, Inv, Drop, Safe;
    OnNone(ChainOf(st.newb, source), t);
  }

  lemma NothingUndone(m: map<Id, Chain>, cs: seq<Binding>)
    ensures Without(cs, ChainIds(m, {})) == cs
  {
    assert ChainIds(m, {}) == {};
    WithoutNone(cs, {});
  }

  function UndoneSet(r: Rules, s: Id): set<Id> { set q | q in Undone(r, s) }

  /** The bindings that undoing what the call undoes leaves of t's. */
  function LeftOf(r: Rules, st: State, s: Id, t: Id): seq<Binding>
    requires t in st.cache
  {
    Without(st.cache[t], ChainIds(st.oldb, UndoneSet(r, s)))
  }

  /**
   * What an accepted setting does to the binding a frozen symbol t shows: if a formula bound it again, t shows the
   * latest such binding. If none in play mentions it, whether t shows the same can be told before the call: exactly if
   * the call is idle, or t's stack shows the same without the chains of the symbol set and its menu siblings.
   */
  lemma FrozenShows(fuel: nat, r: Rules, st: State, s: Id, value: Trit, freeze: bool, t: Id)
    requires Quiescent(st) && MenuMatches(r, s) && t in st.cache && IsFrozen(r, st, t)
    requires SetSymbol(fuel, r, st, s, value, freeze).Done? && SetSymbol(fuel, r, st, s, value, freeze).value.1
    ensures Proposal(fuel, r, st, s, value).Done?
    ensures var st' := SetSymbol(fuel, r, st, s, value, freeze).value.0;
            var (prop, undo) := Proposal(fuel, r, st, s, value).value;
            var again := On(ChainOf(prop.newb, s), t);
            var left := Without(st.cache[t], ChainIds(st.oldb, undo));
            && t in st'.cache
            && Shown(st'.cache[t], {}) == (if again == [] then Shown(left, {}) else Some(again[0].value))
            && (!Mentioned(r, st, t) ==>
                  (Shown(st'.cache[t], {}) == Shown(st.cache[t], {}) <==>
                     Idle(r, st, s, value) || Shown(LeftOf(r, st, s, t), {}) == Shown(st.cache[t], {})))
  {
    hide SetSymbol, Proposal, Within, Inv, BindCommit, Holds, Drop, On, Shown, Without, Undone, IsFrozen, Idle,
         ChainIds, Mentioned;
    DecisionIsAboutTheCommit(fuel, r, st, s, value, freeze);
    ProposalWithin(fuel, r, st, s, value);
    var (prop, undo) := Proposal(fuel, r, st, s, value).value;
    FrozenStack(r, st, prop, s, undo, t);
    ShownOnTop(On(ChainOf(prop.newb, s), t), Without(st.cache[t], ChainIds(st.oldb, undo)));
    if !Mentioned(r, st, t) { NotAgain(r, st, prop, s, t); }
    NothingUndone(st.oldb, st.cache[t]);
    assert Idle(r, st, s, value) ==> undo == {};
    assert !Idle(r, st, s, value) ==> undo == UndoneSet(r, s);
    var st' := SetSymbol(fuel, r, st, s, value, freeze).value.0;
    var left := Without(st.cache[t], ChainIds(st.oldb, undo));
    assert st'.cache[t] == On(ChainOf(prop.newb, s), t) + left;
    if !Mentioned(r, st, t) {
      assert Shown(st'.cache[t], {}) == Shown(left, {});
      if Idle(r, st, s, value) { assert left == st.cache[t]; } else { assert left == LeftOf(r, st, s, t); }
    }
  }
}
