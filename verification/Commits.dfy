/** What an accepted setting changes besides its own bindings (contrib/cml2/cmlsystem.py, freeze and __commit). */
module Commits {
  import opened Options
  import opened Rulebase
  import opened Journal
  import opened Propagation
  import opened FrozenSymbols
  import opened Transactions
  import opened Sessions
  import opened Runs
  import opened Effects

  predicate InChoices(r: Rules, s: Id) { r.At(s).menu.Some? && r.At(r.At(s).menu.value).kind.ChoicesKind? }

  // ----- what is undone

  /** Choosing one alternative of a choices menu undoes all bindings that the choice of any of them had brought. */
  lemma AlternativesUndone(fuel: nat, r: Rules, st: State, s: Id, value: Trit, freeze: bool, t: Id, b: Binding)
    requires Quiescent(st) && MenuMatches(r, s) && !Idle(r, st, s, value)
    requires SetSymbol(fuel, r, st, s, value, freeze).Done? && SetSymbol(fuel, r, st, s, value, freeze).value.1
    requires Owns(st.oldb, t, b)
    ensures Stacked(SetSymbol(fuel, r, st, s, value, freeze).value.0.cache, b) <==>
            if InChoices(r, s) then t !in r.At(r.At(s).menu.value).items else t != s
  {
    hide SetSymbol, Proposal, Idle, Within, Inv;
    AcceptedCommit(fuel, r, st, s, value, freeze);
    ProposalWithin(fuel, r, st, s, value);
    InvParts(st);
    var (prop, undo) := Proposal(fuel, r, st, s, value).value;
    assert undo == set u | u in Undone(r, s) by { WithinFacts(r, st, prop, s); }
    assert t in undo <==> if InChoices(r, s) then t in r.At(r.At(s).menu.value).items else t == s by {
      UndoneExact(r, s);
    }
  }

  lemma UndoneExact(r: Rules, s: Id)
    ensures Undone(r, s) == if InChoices(r, s) then r.At(r.At(s).menu.value).items else [s]
  {
  }

  // ----- what is frozen

  /** Freezing u freezes t: itself, or with an alternative of a choices menu the menu and the other alternatives. */
  predicate FreezesWith(r: Rules, u: Id, t: Id) {
    t == u || (InChoices(r, u) && (t == r.At(u).menu.value || t in r.At(r.At(u).menu.value).items))
  }

  lemma {:induction false} FreezeAllExact(r: Rules, iced: set<Id>, touched: seq<Id>, t: Id)
    ensures t in FreezeAll(r, iced, touched) <==> t in iced || exists u :: u in touched && FreezesWith(r, u, t)
    decreases |touched|
  {
    if touched == [] {
    } else {
      var u := touched[0];
      FreezeAllExact(r, Freeze(r, iced, u), touched[1..], t);
      assert t in Freeze(r, iced, u) <==> t in iced || FreezesWith(r, u, t);
      assert forall w :: w in touched <==> w == u || w in touched[1..];
    }
  }

  /** What of a proposal remains when it is accepted, apart from the journal. */
  lemma DecideRest(r: Rules, prop: State, undo: set<Id>, freeze: bool)
    requires Decide(r, prop, undo, freeze).Done? && Decide(r, prop, undo, freeze).value.1
    ensures var st' := Decide(r, prop, undo, freeze).value.0;
            && st'.iced == (if freeze then FreezeAll(r, prop.iced, prop.touched) else prop.iced)
            && st'.access == (if freeze then Access(r, st'.reduced) else prop.access)
            && (!freeze ==> st'.reduced == prop.reduced)
            && st'.tritsEnabled ==
               (if !freeze && r.tritTie.Some? && r.tritTie.value in prop.touched
                then EvalSymbol(r, ViewOf(Conceal(prop, undo)), r.tritTie.value) != N else prop.tritsEnabled)
  {
    hide ChainIds, Failures, FreezeAll, SimplifyAll, EvalSymbol, CommitSet, Drop, Access, FrozenSet, Rollback, Shown;
  }

  /** The formulas are simplified with exactly the symbols constant that a setting treats as frozen. */
  lemma FrozenSetExact(r: Rules, st: State, s: Id)
    ensures s in FrozenSet(r, st) <==> s in st.iced || r.At(s).kind.MessageKind?
    ensures s in FrozenSet(r, st) <==> IsFrozen(r, st, s)
  {
    if r.At(s).kind.MessageKind? { assert s < |r.symbols|; }
  }

  /** A freezing call freezes what it touched, and with alternatives their menus; another call freezes nothing. */
  lemma AcceptedFreezes(fuel: nat, r: Rules, st: State, s: Id, value: Trit, freeze: bool, t: Id)
    requires Quiescent(st)
    requires SetSymbol(fuel, r, st, s, value, freeze).Done? && SetSymbol(fuel, r, st, s, value, freeze).value.1
    ensures Proposal(fuel, r, st, s, value).Done? && s in Proposal(fuel, r, st, s, value).value.0.touched
    ensures t in SetSymbol(fuel, r, st, s, value, freeze).value.0.iced <==>
            t in st.iced ||
            (freeze && exists u :: u in Proposal(fuel, r, st, s, value).value.0.touched && FreezesWith(r, u, t))
  {
    hide Quiescent, Within, Proposal, Decide, FreezesWith, FreezeAll;
    ProposalWithin(fuel, r, st, s, value);
    var (prop, undo) := Proposal(fuel, r, st, s, value).value;
    WithinFacts(r, st, prop, s);
    DecideRest(r, prop, undo, freeze);
    FreezeAllExact(r, prop.iced, prop.touched, t);
  }

  /** Whoever is set while a setting is worked out is touched by it. */
  lemma SetTouches(r: Rules, st0: State, mid: State, st': State, s: Id, value: Trit, source: Id, sort: Sort)
    requires Within(r, st0, mid, source) && Fit(r, source, s) && WasSet(r, mid, st', s, value, source, sort)
    ensures s in st'.touched
  {
    hide Within, Fit, EvalSymbol, SetUnfrozen, Grown, Inv, Visible, ChainIds, Bind;
    var fuel: nat, next :| SetInternal(fuel, r, mid, s, value, source, sort) == Done(next) && Grown(next, st');
    var st1 := mid.(touched := mid.touched + [s]);
    assert s in st1.touched;
    SourceFacts(r, st0, mid, source);
    FrameWithin(r, st0, mid, st1, source);
    if !IsFrozen(r, mid, s) && (s != source || EvalSymbol(r, ViewOf(mid), s) != value) {
      SetUnfrozenWithin(fuel - 1, r, st0, st1, s, value, source, sort);
      GrownTouched(st1, next);
    }
    GrownTouched(next, st');
  }

  lemma GrownTouched(st: State, st': State)
    requires Grown(st, st')
    ensures forall t | t in st.touched :: t in st'.touched
  {
  }

  /** So a freezing call that chooses a symbol freezes the symbols it excludes. */
  lemma SiblingsFrozen(fuel: nat, r: Rules, st: State, s: Id, value: Trit, t: Id)
    requires Quiescent(st) && !Idle(r, st, s, value) && value != N && t in r.At(s).choicegroup
    requires SetSymbol(fuel, r, st, s, value, true).Done? && SetSymbol(fuel, r, st, s, value, true).value.1
    ensures t in SetSymbol(fuel, r, st, s, value, true).value.0.iced
  {
    hide Within, SetSymbol, Proposal, Quiescent, Idle, WasSet, EvalSymbol, Start, Grown, UpPath, DownPath, Forced;
    AcceptedFreezes(fuel, r, st, s, value, true, t);
    ProposalReaches(fuel, r, st, s, value);
    var prop := Proposal(fuel, r, st, s, value).value.0;
    var mid :| Between(r, st, Start(st, s, value).value, mid, prop, s) && Met(r, mid, prop, s, t, Sibling);
    SetTouches(r, st, mid, prop, t, N, s, Plain);
  }

  // ----- the trits

  /** An accepted call on the trit tie switches the trits on or off with it, unless it freezes. */
  lemma TritsFollowTie(fuel: nat, r: Rules, st: State, s: Id, value: Trit, freeze: bool)
    requires Quiescent(st) && r.tritTie == Some(s)
    requires SetSymbol(fuel, r, st, s, value, freeze).Done? && SetSymbol(fuel, r, st, s, value, freeze).value.1
    ensures var st' := SetSymbol(fuel, r, st, s, value, freeze).value.0;
            st'.tritsEnabled == if freeze then st.tritsEnabled else EvalSymbol(r, ViewOf(st'), s) != N
  {
    hide Inv, Within, Proposal, EvalSymbol, Decide, Drop, BindCommit;
    DecisionIsAboutTheCommit(fuel, r, st, s, value, freeze);
    ProposalWithin(fuel, r, st, s, value);
    var (prop, undo) := Proposal(fuel, r, st, s, value).value;
    WithinFacts(r, st, prop, s);
    ConcealIsCommit(prop, undo);
    DecideRest(r, prop, undo, freeze);
  }

  // ----- the formulas watched

  ghost predicate Current(r: Rules, st: State) { st.access == Access(r, st.reduced) }

  lemma CallCurrent(fuel: nat, r: Rules, st: State, s: Id, value: Trit, freeze: bool)
    requires Quiescent(st) && Current(r, st)
    ensures var res := SetSymbol(fuel, r, st, s, value, freeze); res.Done? ==> Current(r, res.value.0)
  {
    hide Quiescent, Within, Proposal, Decide, Access;
    RejectedIsUndone(fuel, r, st, s, value, freeze);
    ProposalWithin(fuel, r, st, s, value);
    var proposal := Proposal(fuel, r, st, s, value);
    if proposal.Done? {
      WithinFacts(r, st, proposal.value.0, s);
      var res := Decide(r, proposal.value.0, proposal.value.1, freeze);
      if res.Done? && res.value.1 { DecideRest(r, proposal.value.0, proposal.value.1, freeze); }
    }
  }

  /** In every state of a run each symbol watches exactly the formulas now in force that rest on it. */
  lemma {:induction false} WatchedExact(fuel: nat, r: Rules, st: State, steps: seq<Step>, s: Id, e: Expr)
    requires Quiescent(st) && MenusMatch(r) && Current(r, st) && s < |r.symbols|
    ensures var res := Run(fuel, r, st, steps);
            res.Done? ==> (e in Watched(res.value, s) <==> e in res.value.reduced && s in Flatten(r, e))
    decreases |steps|
  {
    hide Quiescent, SetSymbol, Current;
    if steps == [] {
      WatchingExact(r, st.reduced, s);
      assert s in st.access && st.access[s] == Watching(r, st.reduced, s) by { AccessAt(r, st, s); }
    } else {
      match steps[0] {
        case Set(call) =>
          CallQuiescent(fuel, r, st, call);
          CallCurrent(fuel, r, st, call.symbol, call.value, call.freeze);
        case Switch(i, sup) =>
          SwitchKeeps(st, i, sup);
          SwitchCurrent(r, st, i, sup);
      }
      var res := After(fuel, r, st, steps[0]);
      if res.Done? { WatchedExact(fuel, r, res.value, steps[1..], s, e); }
    }
  }

  lemma AccessAt(r: Rules, st: State, s: Id)
    requires Current(r, st) && s < |r.symbols|
    ensures s in st.access && st.access[s] == Watching(r, st.reduced, s)
  {
  }

  lemma SwitchCurrent(r: Rules, st: State, interactive: bool, suppressions: bool)
    requires Current(r, st)
    ensures Current(r, st.(interactive := interactive, suppressions := suppressions))
  {
  }

  lemma ClearIsCurrent(r: Rules)
    ensures Current(r, Clear(r))
  {
  }

  /** From a fresh rulebase on, whatever is set, frozen or switched. */
  lemma AlwaysWatched(fuel: nat, r: Rules, steps: seq<Step>, s: Id, e: Expr)
    requires MenusMatch(r) && s < |r.symbols|
    ensures var res := Run(fuel, r, Clear(r), steps);
            res.Done? ==> (e in Watched(res.value, s) <==> e in res.value.reduced && s in Flatten(r, e))
  {
    hide Quiescent, Clear;
    ClearIsQuiescent(r);
    ClearIsCurrent(r);
    WatchedExact(fuel, r, Clear(r), steps, s, e);
  }
}
