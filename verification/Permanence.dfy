/**
 * When freezing lasts (contrib/cml2/cmlsystem.py, set_symbol): conditions on the state before a call under which the
 * call, and every later one, leaves a frozen symbol's value alone.
 */
module Permanence {
  import opened Options
  import opened Rulebase
  import opened PartialEval
  import opened Journal
  import opened Propagation
  import opened FrozenSymbols
  import opened Transactions
  import opened Sessions
  import opened Runs
  import opened Freezing

  // ----- committing

  /** Removing other bindings keeps a binding, and above it only what was above it. */
  lemma WithoutAt(cs: seq<Binding>, ids: set<nat>, k: nat)
    requires k < |cs| && cs[k].id !in ids
    ensures var j := |Without(cs[..k], ids)|;
            && j < |Without(cs, ids)| && Without(cs, ids)[j] == cs[k]
            && forall i | 0 <= i < j :: Without(cs, ids)[i] in cs[..k]
  {
    assert cs == cs[..k] + cs[k..] && cs[k..][0] == cs[k];
    WithoutAppend(cs[..k], cs[k..], ids);
    WithoutMembers(cs[..k], ids);
    var front := Without(cs[..k], ids);
    forall i | 0 <= i < |front| ensures Without(cs, ids)[i] in cs[..k] { assert front[i] in front; }
  }

  /** The set that a commit undoes has no chain that stays. */
  ghost predicate Spares(r: Rules, st: State, undo: set<Id>) { forall p | Lasting(r, st, p) :: p !in undo }

  lemma UndoSpares(fuel: nat, r: Rules, st: State, s: Id, value: Trit)
    requires Quiescent(st) && Proposal(fuel, r, st, s, value).Done?
    ensures Spares(r, st, Proposal(fuel, r, st, s, value).value.1)
  {
    hide Quiescent, Proposal, Within, IsFrozen, Undone, EvalSymbol, Visible;
    ProposalWithin(fuel, r, st, s, value);
  }

  lemma AnchorSpared(st: State, undo: set<Id>, p: Id, b: Binding)
    requires Inv(st) && Owns(st.oldb, p, b) && p !in undo
    ensures b.id !in ChainIds(st.oldb, undo)
  {
    ChainIdsExact(st.oldb, st.cache, st.nextId, undo, b);
  }

  lemma CommitKeeps(r: Rules, st0: State, prop: State, source: Id, undo: set<Id>)
    requires Within(r, st0, prop, source) && prop.hidden == {}
    ensures BindCommit(prop, undo).hidden == {} && BindCommit(prop, undo).iced == st0.iced
    ensures BindCommit(prop, undo).cache.Keys == st0.cache.Keys
  {
    hide Inv, OnTop, Again, Uncovered;
  }

  lemma {:induction false} AnchoredCommit(r: Rules, st0: State, prop: State, source: Id, undo: set<Id>, t: Id, k: nat,
                                          p: Id)
    requires Within(r, st0, prop, source) && Inv(st0) && st0.hidden == {} && prop.hidden == {}
    requires Safe(r, st0, source, t) && AnchoredAt(r, st0, t, k, p)
    requires Spares(r, st0, undo) && (prop.newb != map[] ==> source in undo)
    ensures var c := BindCommit(prop, undo);
            && EvalSymbol(r, ViewOf(c), t) == EvalSymbol(r, ViewOf(st0), t)
            && exists j :: AnchoredAt(r, c, t, j, p)
  {
    hide On, EvalSymbol, Visible, Shown, Within, Without, Inv, BindCommit, Undone, Orderly, Secure;
    var cs, b, ids := st0.cache[t], st0.cache[t][k], ChainIds(st0.oldb, undo);
    SafeStack(r, st0, prop, source, t);
    FrozenStack(r, st0, prop, source, undo, t);
    AnchoredValue(r, st0, t, k, p);
    AnchorSpared(st0, undo, p, b);
    WithoutAt(cs, ids, k);
    CommitKeeps(r, st0, prop, source, undo);
    CommitChains(r, st0, prop, source, undo, p, b);
    var c, on, j := BindCommit(prop, undo), On(ChainOf(prop.newb, source), t), |Without(cs[..k], ids)|;
    var left := Without(cs, ids);
    forall i | 0 <= i <= j ensures left[i].value == b.value {
      if i < j { assert left[i] in cs[..k]; }
    }
    ShownBelow(on, left, {}, j, b.value);
    ValueShown(r, c, t);
    Above(on, left, j, b.value);
    LastingFrame(r, st0, c, p);
    assert AnchoredAt(r, c, t, |on| + j, p);
  }

  lemma Above(on: seq<Binding>, left: seq<Binding>, j: nat, x: Trit)
    requires j < |left| && (forall b | b in on :: b.value == x) && forall i | 0 <= i <= j :: left[i].value == x
    ensures (on + left)[|on| + j] == left[j]
    ensures forall i | 0 <= i <= |on| + j :: (on + left)[i].value == x
  {
    forall i | 0 <= i < |on| ensures (on + left)[i].value == x { assert on[i] in on; }
  }

  lemma LastingFrame(r: Rules, a: State, b: State, p: Id)
    requires a.iced <= b.iced && Lasting(r, a, p)
    ensures Lasting(r, b, p)
  {
    hide Undone;
  }

  /** A safe symbol keeps its value, and its security, through the commit. */
  lemma {:induction false} SafeCommit(r: Rules, st0: State, prop: State, source: Id, undo: set<Id>, t: Id)
    requires Within(r, st0, prop, source) && Inv(st0) && st0.hidden == {} && prop.hidden == {}
    requires Safe(r, st0, source, t) && Spares(r, st0, undo) && (prop.newb != map[] ==> source in undo)
    ensures var c := BindCommit(prop, undo);
            && EvalSymbol(r, ViewOf(c), t) == EvalSymbol(r, ViewOf(st0), t)
            && Secure(r, c, t) && (Anchored(r, st0, t) ==> Anchored(r, c, t))
    decreases t
  {
    hide Within, EvalSymbol, Visible, Inv, BindCommit, DefaultValue, Flatten, Orderly, AnchoredAt, Spares, AtDefault;
    var c := BindCommit(prop, undo);
    CommitKeeps(r, st0, prop, source, undo);
    FrozenStays(r, st0, c, t);
    if Anchored(r, st0, t) {
      var k, p :| AnchoredAt(r, st0, t, k, p);
      AnchoredCommit(r, st0, prop, source, undo, t, k, p);
    } else {
      OrderlyCommit(r, st0, prop, source, undo);
      if r.At(t).default.Some? {
        forall u | u in Flatten(r, r.At(t).default.value)
          ensures u < t && EvalSymbol(r, ViewOf(st0), u) == EvalSymbol(r, ViewOf(c), u) && Secure(r, c, u)
        {
          SafeCommit(r, st0, prop, source, undo, u);
        }
      }
      SameDefault(r, ViewOf(st0), ViewOf(c), t);
      DefaultCommit(r, st0, prop, source, undo, t);
    }
  }

  lemma FrozenStays(r: Rules, a: State, b: State, t: Id)
    requires a.iced <= b.iced && IsFrozen(r, a, t)
    ensures IsFrozen(r, b, t)
  {
  }

  lemma OrderlyCommit(r: Rules, st0: State, prop: State, source: Id, undo: set<Id>)
    requires Within(r, st0, prop, source) && Orderly(r, st0, source) && prop.hidden == {}
    ensures DerivedUnbound(r, ViewOf(st0)) && DerivedUnbound(r, ViewOf(BindCommit(prop, undo)))
  {
    hide Within, Linked;
    WithinUnbound(r, st0, prop, source);
    UnboundView(r, prop, undo);
    UnboundNow(r, BindCommit(prop, undo));
  }

  lemma DefaultCommit(r: Rules, st0: State, prop: State, source: Id, undo: set<Id>, t: Id)
    requires Within(r, st0, prop, source) && st0.hidden == {} && prop.hidden == {}
    requires Safe(r, st0, source, t) && AtDefault(r, st0, t)
    requires DefaultValue(r, ViewOf(BindCommit(prop, undo)), t) == DefaultValue(r, ViewOf(st0), t)
    ensures var c := BindCommit(prop, undo);
            EvalSymbol(r, ViewOf(c), t) == EvalSymbol(r, ViewOf(st0), t) && AtDefault(r, c, t)
  {
    hide EvalSymbol, Visible, Shown, DefaultValue, On, Within, Without, BindCommit, Orderly, Secure, Anchored;
    var c, x := BindCommit(prop, undo), DefaultValue(r, ViewOf(st0), t);
    CommitKeeps(r, st0, prop, source, undo);
    ValueShown(r, st0, t);
    ValueShown(r, c, t);
    if t in st0.cache {
      SafeStack(r, st0, prop, source, t);
      FrozenStack(r, st0, prop, source, undo, t);
      WithoutMembers(st0.cache[t], ChainIds(st0.oldb, undo));
      ShownSame(st0.cache[t], {}, x);
      ShownSame(c.cache[t], {}, x);
    }
  }

  // ----- calls

  lemma {:induction false} FreezeAllGrows(r: Rules, iced: set<Id>, touched: seq<Id>)
    ensures iced <= FreezeAll(r, iced, touched)
    decreases |touched|
  {
    if touched == [] {
    } else {
      FreezeAllGrows(r, Freeze(r, iced, touched[0]), touched[1..]);
    }
  }

  lemma {:induction false} FreezeAllHas(r: Rules, iced: set<Id>, touched: seq<Id>, s: Id)
    requires s in touched
    ensures s in FreezeAll(r, iced, touched) && UndoneSet(r, s) <= FreezeAll(r, iced, touched)
    decreases |touched|
  {
    if touched[0] == s {
      FreezeAllGrows(r, Freeze(r, iced, s), touched[1..]);
    } else {
      FreezeAllHas(r, Freeze(r, iced, touched[0]), touched[1..], s);
    }
  }

  lemma CommitIced(r: Rules, prop: State, undo: set<Id>, freeze: bool)
    ensures var res := Commit(r, SaneCheck(r, Conceal(prop, undo)), freeze);
            res.Done? ==> res.value.iced == if freeze then FreezeAll(r, prop.iced, prop.touched) else prop.iced
  {
    hide SimplifyAll, CommitSet, FreezeAll, Access, Failures, Visible, Drop, ChainIds;
  }

  /**
   * No call changes the value of a safe symbol: one that is anchored, or, in a rulebase that links no derived symbols,
   * one at a default that rests on secure symbols. And it stays anchored, or secure.
   */
  lemma SafeCall(fuel: nat, r: Rules, st: State, call: Call, t: Id)
    requires Quiescent(st) && MenuMatches(r, call.symbol) && Safe(r, st, call.symbol, t)
    ensures var res := SetSymbol(fuel, r, st, call.symbol, call.value, call.freeze);
            res.Done? ==>
              && EvalSymbol(r, ViewOf(res.value.0), t) == EvalSymbol(r, ViewOf(st), t)
              && Secure(r, res.value.0, t) && (Anchored(r, st, t) ==> Anchored(r, res.value.0, t))
  {
    hide Inv, Proposal, SetSymbol, Within, EvalSymbol, Visible, BindCommit, Commit, Anchored, Secure, Orderly, Spares,
         FreezeAll, Failures;
    var res := SetSymbol(fuel, r, st, call.symbol, call.value, call.freeze);
    if res.Done? {
      var st' := res.value.0;
      AcceptedExact(fuel, r, st, call);
      RejectedIsUndone(fuel, r, st, call.symbol, call.value, call.freeze);
      SecureSafe(r, st, call.symbol, t);
      if res.value.1 {
        var (prop, undo) := Proposal(fuel, r, st, call.symbol, call.value).value;
        DecisionIsAboutTheCommit(fuel, r, st, call.symbol, call.value, call.freeze);
        ProposalWithin(fuel, r, st, call.symbol, call.value);
        UndoSpares(fuel, r, st, call.symbol, call.value);
        SafeCommit(r, st, prop, call.symbol, undo, t);
        CommitKeeps(r, st, prop, call.symbol, undo);
        CommitIced(r, prop, undo, call.freeze);
        FreezeAllGrows(r, prop.iced, prop.touched);
        SecureFrame(r, BindCommit(prop, undo), st', t);
        assert ViewOf(st') == ViewOf(BindCommit(prop, undo));
      } else {
        SecureFrame(r, st, st', t);
        assert ViewOf(st') == ViewOf(st);
      }
    }
  }

  lemma SecureSafe(r: Rules, st: State, source: Id, t: Id)
    requires Safe(r, st, source, t)
    ensures Secure(r, st, t)
  {
  }

  /** Undoing is mutual: the items of a choices menu name it as their menu. */
  ghost predicate Mutual(r: Rules) { forall p, q :: p in Undone(r, q) ==> q in Undone(r, p) }

  /** After an accepted freezing call the chain of the symbol set stays. */
  lemma FreezeLasts(fuel: nat, r: Rules, st: State, call: Call)
    requires Quiescent(st) && MenuMatches(r, call.symbol) && Mutual(r) && call.freeze
    ensures var res := SetSymbol(fuel, r, st, call.symbol, call.value, call.freeze);
            res.Done? && res.value.1 ==> Lasting(r, res.value.0, call.symbol)
  {
    hide Quiescent, Proposal, SetSymbol, Within, Visible, Commit, FreezeAll, Failures, Undone;
    var res := SetSymbol(fuel, r, st, call.symbol, call.value, call.freeze);
    if res.Done? && res.value.1 {
      AcceptedExact(fuel, r, st, call);
      ProposalWithin(fuel, r, st, call.symbol, call.value);
      var (prop, undo) := Proposal(fuel, r, st, call.symbol, call.value).value;
      SourceFacts(r, st, prop, call.symbol);
      CommitIced(r, prop, undo, true);
      FreezeAllHas(r, prop.iced, prop.touched, call.symbol);
    }
  }

  /** The topmost binding of t hangs on p. */
  ghost predicate Tops(st: State, p: Id, t: Id) {
    t in st.cache && st.cache[t] != [] && Owns(st.oldb, p, st.cache[t][0])
  }

  /** So it anchors every frozen symbol that shows a binding of that chain, and no later call changes that symbol. */
  lemma FreezeAnchors(fuel: nat, r: Rules, st: State, call: Call, t: Id)
    requires Quiescent(st) && MenuMatches(r, call.symbol) && Mutual(r) && call.freeze
    ensures var res := SetSymbol(fuel, r, st, call.symbol, call.value, call.freeze);
            res.Done? && res.value.1 && Tops(res.value.0, call.symbol, t) && IsFrozen(r, res.value.0, t) ==>
              Anchored(r, res.value.0, t)
  {
    hide Quiescent, SetSymbol, Lasting;
    FreezeLasts(fuel, r, st, call);
    var res := SetSymbol(fuel, r, st, call.symbol, call.value, call.freeze);
    if res.Done? && res.value.1 && Tops(res.value.0, call.symbol, t) {
      assert AnchoredAt(r, res.value.0, t, 0, call.symbol);
    }
  }

  // ----- runs

  /** An anchored symbol keeps its value for ever, whatever is set, frozen or switched. */
  lemma {:induction false} AnchoredRun(fuel: nat, r: Rules, st: State, steps: seq<Step>, t: Id)
    requires Quiescent(st) && MenusMatch(r) && Anchored(r, st, t)
    ensures var res := Run(fuel, r, st, steps);
            res.Done? ==>
              Anchored(r, res.value, t) && EvalSymbol(r, ViewOf(res.value), t) == EvalSymbol(r, ViewOf(st), t)
    decreases |steps|
  {
    hide SetSymbol, EvalSymbol, Visible, Anchored, Inv;
    if steps == [] {
    } else {
      match steps[0] {
        case Set(call) =>
          SafeCall(fuel, r, st, call, t);
          CallQuiescent(fuel, r, st, call);
        case Switch(i, s) =>
          SwitchKeeps(st, i, s);
          SecureFrame(r, st, st.(interactive := i, suppressions := s), t);
      }
      var res := After(fuel, r, st, steps[0]);
      if res.Done? { AnchoredRun(fuel, r, res.value, steps[1..], t); }
    }
  }

  ghost predicate Steadfast(r: Rules, st: State) { Quiescent(st) && Unbound(r, st) && AllSecure(r, st) }

  /** The symbols that the step freezes are secure in the state it leads to. */
  ghost predicate FreezesSecurely(r: Rules, st: State, st': State) {
    forall t | IsFrozen(r, st', t) && !IsFrozen(r, st, t) :: Secure(r, st', t)
  }

  /** If every frozen symbol is secure no call changes any of them, and only a freezing one can add insecure ones. */
  lemma SecureStep(fuel: nat, r: Rules, st: State, step: Step)
    requires Steadfast(r, st) && MenusMatch(r) && Linked(r) && (step.Set? ==> !r.At(step.call.symbol).derived)
    ensures var res := After(fuel, r, st, step);
            res.Done? ==>
              && Quiescent(res.value) && Unbound(r, res.value)
              && (forall t | IsFrozen(r, st, t) ::
                    && EvalSymbol(r, ViewOf(res.value), t) == EvalSymbol(r, ViewOf(st), t)
                    && Secure(r, res.value, t))
              && (FreezesSecurely(r, st, res.value) || !Freezes(step) ==> AllSecure(r, res.value))
  {
    hide SetSymbol, EvalSymbol, Visible, Secure, Anchored, Inv, Linked, Unbound;
    var res := After(fuel, r, st, step);
    if res.Done? {
      match step
      case Set(call) =>
        CallQuiescent(fuel, r, st, call);
        CallUnbound(fuel, r, st, call);
        forall t | IsFrozen(r, st, t)
          ensures EvalSymbol(r, ViewOf(res.value), t) == EvalSymbol(r, ViewOf(st), t) && Secure(r, res.value, t)
        {
          SafeCall(fuel, r, st, call, t);
        }
        if !call.freeze { FrozenSame(fuel, r, st, call); }
      case Switch(i, s) =>
        SwitchKeeps(st, i, s);
        SameCache(r, st, res.value);
        forall t | IsFrozen(r, st, t) ensures Secure(r, res.value, t) { SecureFrame(r, st, res.value, t); }
    }
  }

  /** Whatever a freezing step freezes is secure afterwards. */
  ghost predicate AllFreezeSecurely(fuel: nat, r: Rules, st: State, steps: seq<Step>)
    decreases |steps|
  {
    steps != [] ==>
      var res := After(fuel, r, st, steps[0]);
      res.Done? ==>
        && (Freezes(steps[0]) ==> FreezesSecurely(r, st, res.value))
        && AllFreezeSecurely(fuel, r, res.value, steps[1..])
  }

  /** Then every symbol that is frozen at any time keeps its value from then on. */
  lemma {:induction false} SecureRun(fuel: nat, r: Rules, st: State, steps: seq<Step>)
    requires Steadfast(r, st) && MenusMatch(r) && Linked(r) && SetsSettable(r, steps)
    requires AllFreezeSecurely(fuel, r, st, steps)
    ensures var res := Run(fuel, r, st, steps);
            res.Done? ==>
              && Steadfast(r, res.value)
              && (forall t | IsFrozen(r, st, t) ::
                    && IsFrozen(r, res.value, t)
                    && EvalSymbol(r, ViewOf(res.value), t) == EvalSymbol(r, ViewOf(st), t))
    decreases |steps|
  {
    hide SetSymbol, EvalSymbol, Visible, Secure, Inv, Linked, Unbound, After, FreezesSecurely;
    if steps == [] {
    } else {
      assert steps[0] in steps;
      SecureStep(fuel, r, st, steps[0]);
      var res := After(fuel, r, st, steps[0]);
      if res.Done? {
        forall t | IsFrozen(r, st, t) ensures IsFrozen(r, res.value, t) { SecureFrozen(r, res.value, t); }
        SecureRun(fuel, r, res.value, steps[1..]);
      }
    }
  }

  lemma SecureFrozen(r: Rules, st: State, t: Id)
    requires Secure(r, st, t)
    ensures IsFrozen(r, st, t)
  {
  }

  /** A call that does not freeze leaves the frozen set as it is. */
  lemma FrozenSame(fuel: nat, r: Rules, st: State, call: Call)
    requires Quiescent(st) && MenuMatches(r, call.symbol) && !call.freeze
    ensures var res := SetSymbol(fuel, r, st, call.symbol, call.value, call.freeze);
            res.Done? ==> res.value.0.iced == st.iced
  {
    hide Quiescent, Proposal, SetSymbol, Visible, Commit, FreezeAll, Failures;
    if SetSymbol(fuel, r, st, call.symbol, call.value, call.freeze).Done? {
      AcceptedExact(fuel, r, st, call);
      RejectedIsUndone(fuel, r, st, call.symbol, call.value, call.freeze);
      var (prop, undo) := Proposal(fuel, r, st, call.symbol, call.value).value;
      CommitIced(r, prop, undo, false);
    }
  }

  /** Freezing a symbol at its value leaves all frozen symbols secure if and only if they are with it frozen. */
  lemma IdleFreezeSecure(fuel: nat, r: Rules, st: State, s: Id)
    requires fuel > 0 && Consistent(r, st) && r.At(s).menu.Some? && !r.At(r.At(s).menu.value).kind.ChoicesKind?
    requires SimplifyAll(r, FrozenSet(r, st.(iced := st.iced + {s})), ViewOf(st), st.reduced).Done?
    ensures var res := SetSymbol(fuel, r, st, s, EvalSymbol(r, ViewOf(st), s), true);
            res.Done? && res.value.1 && (AllSecure(r, res.value.0) <==> AllSecure(r, st.(iced := st.iced + {s})))
  {
    hide Quiescent, EvalSymbol, SimplifyAll, Holds, Access, FrozenSet, Shown, SetSymbol, Secure, Anchored;
    var frozen := st.(iced := st.iced + {s});
    IdleFreeze(fuel, r, st, s, SimplifyAll(r, FrozenSet(r, frozen), ViewOf(st), st.reduced).value);
    var st' := SetSymbol(fuel, r, st, s, EvalSymbol(r, ViewOf(st), s), true).value.0;
    forall t ensures Secure(r, st', t) <==> Secure(r, frozen, t) {
      SecureFrame(r, st', frozen, t);
      SecureFrame(r, frozen, st', t);
    }
  }
}
