/** Frozen symbols (contrib/cml2/cmlsystem.py): when a frozen symbol's value can no longer change. */
module FrozenSymbols {
  import opened Options
  import opened Rulebase
  import opened Journal

  /** The value s has as long as it is not bound. */
  function DefaultValue(r: Rules, v: View, s: Id): Trit {
    if r.At(s).default.None? then N
    else
      var t := Eval(r, v, r.At(s).default.value);
      if r.At(s).kind.BoolKind? then Tritify(t != N) else t
  }

  /** The bindings of s on a chain, latest first. */
  function On(chain: Chain, s: Id): Chain {
    if chain == [] then [] else (if chain[0].symbol == s then [chain[0]] else []) + On(chain[1..], s)
  }

  /** No derived symbol is bound. */
  ghost predicate Unbound(r: Rules, st: State) { forall s | s in st.cache && r.At(s).derived :: st.cache[s] == [] }

  /** The committed chain of p stays: p and whatever would undo it are frozen. */
  ghost predicate Lasting(r: Rules, st: State, p: Id) {
    IsFrozen(r, st, p) && forall q :: p in Undone(r, q) ==> IsFrozen(r, st, q)
  }

  /** The k-th binding of t hangs on a chain that stays, and those above it say the same. */
  ghost predicate AnchoredAt(r: Rules, st: State, t: Id, k: nat, p: Id) {
    && t in st.cache && k < |st.cache[t]|
    && Lasting(r, st, p) && Owns(st.oldb, p, st.cache[t][k])
    && forall i | 0 <= i < k :: st.cache[t][i].value == st.cache[t][k].value
  }

  ghost predicate Anchored(r: Rules, st: State, t: Id) {
    IsFrozen(r, st, t) && exists k, p :: AnchoredAt(r, st, t, k, p)
  }

  /** All that t is bound to is what its default gives. */
  ghost predicate AtDefault(r: Rules, st: State, t: Id) {
    t in st.cache ==> forall b | b in st.cache[t] :: b.value == DefaultValue(r, ViewOf(st), t)
  }

  /** A frozen symbol is secure if it is anchored, or at a default that rests on secure symbols only. */
  ghost predicate Secure(r: Rules, st: State, t: Id)
    decreases t
  {
    Anchored(r, st, t) ||
    (IsFrozen(r, st, t) && AtDefault(r, st, t) &&
     (r.At(t).default.Some? ==> forall u | u in Flatten(r, r.At(t).default.value) :: u < t && Secure(r, st, u)))
  }

  ghost predicate AllSecure(r: Rules, st: State) { forall t | IsFrozen(r, st, t) :: Secure(r, st, t) }

  /** A formula or a visibility that propagation looks at rests on t. */
  ghost predicate Mentioned(r: Rules, st: State, t: Id) {
    || (exists s, e :: s in st.access && e in st.access[s] && t in Flatten(r, e))
    || (st.interactive && !st.suppressions &&
        exists s :: r.At(s).visibility.Some? && t in Flatten(r, r.At(s).visibility.value))
  }

  ghost predicate AllMentioned(r: Rules, st: State, e: Expr) { forall t | t in Flatten(r, e) :: Mentioned(r, st, t) }

  // ----- what a stack shows

  lemma {:induction false} ShownUniform(cs: seq<Binding>, hidden: set<nat>, k: nat, x: Trit)
    requires k < |cs| && cs[k].id !in hidden && forall i | 0 <= i <= k :: cs[i].value == x
    ensures Shown(cs, hidden) == Some(x)
  {
    if k == 0 {
    } else if cs[0].id in hidden {
      ShownUniform(cs[1..], hidden, k - 1, x);
    } else {
    }
  }

  lemma ShownBelow(on: seq<Binding>, cs: seq<Binding>, hidden: set<nat>, k: nat, x: Trit)
    requires k < |cs| && cs[k].id !in hidden && forall i | 0 <= i <= k :: cs[i].value == x
    requires forall b | b in on :: b.value == x
    ensures Shown(on + cs, hidden) == Some(x)
  {
    var all := on + cs;
    assert all[|on| + k] == cs[k];
    forall i | 0 <= i <= |on| + k ensures all[i].value == x {
      if i < |on| { assert all[i] in on; }
    }
    ShownUniform(all, hidden, |on| + k, x);
  }

  lemma {:induction false} ShownSame(cs: seq<Binding>, hidden: set<nat>, x: Trit)
    requires forall b | b in cs :: b.value == x
    ensures Shown(cs, hidden).Some? ==> Shown(cs, hidden).value == x
  {
    if cs == [] {
    } else {
      ShownSame(cs[1..], hidden, x);
    }
  }

  lemma {:induction false} OnMembers(chain: Chain, s: Id)
    ensures forall b :: b in On(chain, s) <==> b in chain && b.symbol == s
  {
    if chain == [] {
    } else {
      OnMembers(chain[1..], s);
    }
  }

  /** What a symbol's stack shows decides its value, with its default below. */
  lemma ValueShown(r: Rules, st: State, t: Id)
    ensures EvalSymbol(r, ViewOf(st), t) ==
            if t in st.cache && Shown(st.cache[t], st.hidden).Some? then Shown(st.cache[t], st.hidden).value
            else DefaultValue(r, ViewOf(st), t)
  {
    hide Shown;
  }

  /** An anchored symbol's value between calls is that of its anchor. */
  lemma AnchoredValue(r: Rules, st: State, t: Id, k: nat, p: Id)
    requires st.hidden == {} && AnchoredAt(r, st, t, k, p)
    ensures EvalSymbol(r, ViewOf(st), t) == st.cache[t][k].value
  {
    ShownUniform(st.cache[t], {}, k, st.cache[t][k].value);
    ValueShown(r, st, t);
  }

  /** A default that rests on symbols with the same values has the same value. */
  lemma SameDefault(r: Rules, v: View, w: View, t: Id)
    requires DerivedUnbound(r, v) && DerivedUnbound(r, w)
    requires r.At(t).default.Some? ==> AgreeOn(r, v, w, Flatten(r, r.At(t).default.value))
    ensures DefaultValue(r, v, t) == DefaultValue(r, w, t)
  {
    if r.At(t).default.Some? { EvalDependsOnFlatten(r, v, w, r.At(t).default.value); }
  }

  /** Security is about stacks, committed chains and the frozen set, and more frozen symbols do no harm to it. */
  lemma {:induction false} SecureFrame(r: Rules, a: State, b: State, t: Id)
    requires b.cache == a.cache && b.oldb == a.oldb && b.hidden == a.hidden && a.iced <= b.iced
    ensures Anchored(r, a, t) ==> Anchored(r, b, t)
    ensures Secure(r, a, t) ==> Secure(r, b, t)
    decreases t
  {
    hide Undone, Flatten, DefaultValue, Visible;
    if Anchored(r, a, t) {
      var k, p :| AnchoredAt(r, a, t, k, p);
      assert AnchoredAt(r, b, t, k, p);
    } else if Secure(r, a, t) {
      assert ViewOf(a) == ViewOf(b);
      if r.At(t).default.Some? {
        forall u | u in Flatten(r, r.At(t).default.value) ensures u < t && Secure(r, b, u) { SecureFrame(r, a, b, u); }
      }
    }
  }
}
