/** The configurator object itself (contrib/cml2/cmlsystem.py, class CMLSystem): its methods update its fields. */
module Configurator {
  import opened Options
  import opened Rulebase
  import opened PartialEval
  import J = Journal
  import P = Propagation
  import T = Transactions
  import S = Sessions

  type Outcome = J.Result<()>

  function RemoveFirst(cs: seq<J.Binding>, b: J.Binding): seq<J.Binding> {
    if cs == [] then [] else if cs[0] == b then cs[1..] else [cs[0]] + RemoveFirst(cs[1..], b)
  }

  function Ids(chain: J.Chain): set<nat> { set b | b in chain :: b.id }

  /** Removing one binding object removes its id. */
  lemma {:induction false} RemoveIsWithout(cs: seq<J.Binding>, b: J.Binding)
    requires J.Distinct(cs) && forall c | c in cs :: c.id == b.id ==> c == b
    ensures RemoveFirst(cs, b) == J.Without(cs, {b.id})
  {
    if cs == [] {
    } else {
      if cs[0] == b {
        J.WithoutNone(cs[1..], {b.id});
      } else {
        RemoveIsWithout(cs[1..], b);
      }
    }
  }

  lemma {:induction false} WithoutTwice(cs: seq<J.Binding>, a: set<nat>, b: set<nat>)
    ensures J.Without(J.Without(cs, a), b) == J.Without(cs, a + b)
  {
    if cs == [] {
    } else {
      WithoutTwice(cs[1..], a, b);
    }
  }

  lemma DropTwice(cache: map<Id, seq<J.Binding>>, a: set<nat>, b: set<nat>)
    ensures J.Drop(J.Drop(cache, a), b) == J.Drop(cache, a + b)
  {
    forall s | s in cache ensures J.Without(J.Without(cache[s], a), b) == J.Without(cache[s], a + b) {
      WithoutTwice(cache[s], a, b);
    }
  }

  lemma DropNothing(cache: map<Id, seq<J.Binding>>)
    ensures J.Drop(cache, {}) == cache
  {
    forall s | s in cache ensures J.Without(cache[s], {}) == cache[s] { J.WithoutNone(cache[s], {}); }
  }

  lemma StacksApart(cache: map<Id, seq<J.Binding>>, nextId: nat, b: J.Binding, s: Id)
    requires J.Stacks(cache, nextId) && J.Stacked(cache, b) && s in cache
    ensures forall c | c in cache[s] :: c.id == b.id ==> c == b && s == b.symbol
    ensures J.Distinct(cache[s])
  {
    forall c | c in cache[s] ensures c.id == b.id ==> c == b && s == b.symbol { assert J.Stacked(cache, c); }
  }

  /** Taking one binding off its own stack leaves the other stacks alone. */
  lemma RemoveIsDrop(cache: map<Id, seq<J.Binding>>, nextId: nat, b: J.Binding)
    requires J.Stacks(cache, nextId) && J.Stacked(cache, b)
    ensures cache[b.symbol := RemoveFirst(cache[b.symbol], b)] == J.Drop(cache, {b.id})
  {
    hide J.Stacks, J.Distinct, J.Without, RemoveFirst;
    forall s | s in cache ensures J.Without(cache[s], {b.id}) ==
                                  if s == b.symbol then RemoveFirst(cache[s], b) else cache[s]
    {
      StacksApart(cache, nextId, b, s);
      if s == b.symbol {
        RemoveIsWithout(cache[s], b);
      } else {
        J.WithoutNone(cache[s], {b.id});
      }
    }
  }

  lemma DistinctPrefix(chain: J.Chain, i: nat)
    requires J.Distinct(chain) && i < |chain|
    ensures chain[i] in chain && chain[i].id !in Ids(chain[..i])
  {
  }

  lemma UndoneMore(r: Rules, a: set<Id>, p: Id)
    ensures J.UndoneBy(r, a + {p}) == J.UndoneBy(r, a) + Elements(J.Undone(r, p))
  {
  }

  lemma FamilyChain(m: map<Id, J.Chain>, cache: map<Id, seq<J.Binding>>, p: Id)
    requires J.Family(m, cache)
    ensures J.Distinct(J.ChainOf(m, p)) && forall b | b in J.ChainOf(m, p) :: J.Stacked(cache, b)
  {
    forall b | b in J.ChainOf(m, p) ensures J.Stacked(cache, b) { assert J.Owns(m, p, b); }
  }

  lemma ChainIdsOne(m: map<Id, J.Chain>, p: Id)
    ensures J.ChainIds(m, {p}) == Ids(J.ChainOf(m, p))
  {
  }

  lemma ChainIdsMore(m: map<Id, J.Chain>, a: set<Id>, p: Id)
    ensures J.ChainIds(m, a + {p}) == J.ChainIds(m, a) + J.ChainIds(m - a, {p})
  {
    var more := J.ChainIds(m, a + {p});
    forall id | id in more ensures id in J.ChainIds(m, a) + J.ChainIds(m - a, {p}) {
      var q, b :| q in a + {p} && q in m && b in m[q] && b.id == id;
      if q !in a { assert q in m - a && b in (m - a)[q]; }
    }
  }

  /** Unbinding primaries one after the other unbinds the set of them. */
  lemma UnbindOldMore(st: J.State, a: set<Id>, p: Id)
    ensures J.UnbindOld(J.UnbindOld(st, a), {p}) == J.UnbindOld(st, a + {p})
  {
    ChainIdsMore(st.oldb, a, p);
    DropTwice(st.cache, J.ChainIds(st.oldb, a), J.ChainIds(st.oldb - a, {p}));
    assert (st.oldb - a) - {p} == st.oldb - (a + {p});
  }

  lemma UnbindNewMore(st: J.State, a: set<Id>, p: Id)
    ensures J.UnbindNew(J.UnbindNew(st, a), {p}) == J.UnbindNew(st, a + {p})
  {
    ChainIdsMore(st.newb, a, p);
    DropTwice(st.cache, J.ChainIds(st.newb, a), J.ChainIds(st.newb - a, {p}));
    assert (st.newb - a) - {p} == st.newb - (a + {p});
  }

  lemma ChainIdsUnion(m: map<Id, J.Chain>, a: set<Id>, p: Id)
    ensures J.ChainIds(m, a + {p}) == J.ChainIds(m, a) + J.ChainIds(m, {p})
  {
  }

  function Prepend(front: seq<Expr>, rest: J.Result<seq<Expr>>): J.Result<seq<Expr>> {
    if rest.Done? then J.Done(front + rest.value) else rest
  }

  lemma PrependOne(front: seq<Expr>, e: Expr, rest: J.Result<seq<Expr>>)
    ensures Prepend(front, Prepend([e], rest)) == Prepend(front + [e], rest)
  {
    if rest.Done? { assert front + ([e] + rest.value) == front + [e] + rest.value; }
  }

  lemma PrependNone(rest: J.Result<seq<Expr>>)
    ensures Prepend([], rest) == rest
  {
    if rest.Done? { assert [] + rest.value == rest.value; }
  }

  function Noted(list: seq<Expr>, e: Expr, hit: bool): seq<Expr> { if hit && e !in list then list + [e] else list }

  function Counted(n: nat, res: J.Result<(J.State, nat)>): J.Result<(J.State, nat)> {
    if res.Done? then J.Done((res.value.0, n + res.value.1)) else res
  }

  lemma FreezeTouchedJournal(r: Rules, st: J.State)
    ensures S.FreezeTouched(r, st).Done? ==> S.SameJournal(st, S.FreezeTouched(r, st).value)
    ensures S.SameJournal(st, S.Settle(r, st))
  {
  }

  function Elements(ids: seq<Id>): set<Id> { set s | s in ids }

  class CMLSystem {
    const rules: Rules
    var cache: map<Id, seq<J.Binding>>
    var newb: map<Id, J.Chain>
    var oldb: map<Id, J.Chain>
    var hidden: set<nat>
    var nextId: nat
    var iced: set<Id>
    var chilled: map<Id, Id>
    var touched: seq<Id>
    var changesToFrozen: seq<J.Violation>
    var reduced: seq<Expr>
    var access: map<Id, seq<Expr>>
    var tritsEnabled: bool
    var interactive: bool
    var suppressions: bool

    function State(): J.State
      reads this
    {
      J.State(cache, newb, oldb, hidden, nextId, iced, chilled, touched, changesToFrozen, reduced, access,
              tritsEnabled, interactive, suppressions)
    }

    ghost predicate Valid()
      reads this
    {
      J.Inv(State())
    }

    /** The object did what the specification says: the same exception, or the specified state. */
    ghost predicate Did(spec: J.Result<J.State>, res: Outcome)
      reads this
    {
      match spec
      case Done(st) => res.Done? && State() == st
      case Raised(e) => res == J.Raised(e)
    }

    constructor (rules: Rules)
      ensures this.rules == rules
      ensures Valid()
      ensures cache.Keys == Access(rules, rules.constraints).Keys && forall s | s in cache :: cache[s] == []
      ensures newb == map[] && oldb == map[] && hidden == {} && touched == [] && chilled == map[] && iced == {}
      ensures reduced == rules.constraints && access == Access(rules, rules.constraints)
    {
      this.rules := rules;
      access := Access(rules, rules.constraints);
      cache := map s | s in Access(rules, rules.constraints) :: [];
      newb, oldb, hidden, nextId := map[], map[], {}, 0;
      iced, chilled, touched, changesToFrozen := {}, map[], [], [];
      reduced := rules.constraints;
      tritsEnabled := rules.tritTie.None? || EvalSymbol(rules, map[], rules.tritTie.value) != N;
      interactive, suppressions := true, true;
      new;
      assert forall b :: !J.Stacked(cache, b);
    }

    // ----- journal

    /** Puts the binding behind those that the sort lets precede it. */
    static method InsertSorted(stack: seq<J.Binding>, b: J.Binding, sort: J.Sort) returns (after: seq<J.Binding>)
      ensures after == J.Insert(stack, b, sort)
    {
      var k := 0;
      while k < |stack| && J.Precedes(stack[k].value, b.value, sort)
        invariant k <= |stack|
        invariant forall i | 0 <= i < k :: J.Precedes(stack[i].value, b.value, sort)
      {
        k := k + 1;
      }
      after := stack[..k] + [b] + stack[k..];
    }

    /** Is there a binding of the same symbol to the same value on the chain? */
    static method FindDuplicate(chain: J.Chain, s: Id, value: Trit) returns (found: bool)
      ensures found == J.Recorded(chain, s, value)
    {
      for i := 0 to |chain|
        invariant forall k | 0 <= k < i :: !(chain[k].symbol == s && chain[k].value == value)
      {
        if chain[i].symbol == s && chain[i].value == value { return true; }
      }
      found := false;
    }

    method BindSymbol(s: Id, value: Trit, source: Id, sort: J.Sort) returns (res: Outcome)
      modifies this
      ensures Did(J.Bind(old(State()), s, value, source, sort), res)
    {
      hide J.Recorded, J.Insert, J.ChainOf;
      var chain := J.ChainOf(newb, source);
      var duplicate := FindDuplicate(chain, s, value);
      if duplicate { return J.Done(()); }
      if s !in cache { return J.Raised(J.AttributeError); }
      var b := J.Binding(nextId, s, value);
      var stack := InsertSorted(cache[s], b, sort);
      newb, cache, nextId := newb[source := [b] + chain], cache[s := stack], nextId + 1;
      res := J.Done(());
    }

    /** Takes the binding off its stack; its visible flag goes with it. */
    method Remove(b: J.Binding)
      requires J.Stacks(cache, nextId) && J.Stacked(cache, b)
      modifies this`cache, this`hidden
      ensures cache == J.Drop(old(cache), {b.id}) && hidden == old(hidden) - {b.id}
      ensures J.Stacks(cache, nextId)
    {
      RemoveIsDrop(cache, nextId, b);
      J.DropKeepsStacks(cache, nextId, {b.id});
      cache := cache[b.symbol := RemoveFirst(cache[b.symbol], b)];
      hidden := hidden - {b.id};
    }

    method RemoveChain(chain: J.Chain)
      requires J.Stacks(cache, nextId) && J.Distinct(chain) && forall b | b in chain :: J.Stacked(cache, b)
      modifies this`cache, this`hidden
      ensures cache == J.Drop(old(cache), Ids(chain)) && hidden == old(hidden) - Ids(chain)
    {
      hide J.Stacks, J.Distinct, J.Drop;
      DropNothing(cache);
      assert Ids(chain[..0]) == {};
      for i := 0 to |chain|
        invariant J.Stacks(cache, nextId)
        invariant cache == J.Drop(old(cache), Ids(chain[..i])) && hidden == old(hidden) - Ids(chain[..i])
      {
        DistinctPrefix(chain, i);
        J.DropMembers(old(cache), Ids(chain[..i]));
        Remove(chain[i]);
        DropTwice(old(cache), Ids(chain[..i]), {chain[i].id});
        assert chain[..i + 1] == chain[..i] + [chain[i]];
        assert Ids(chain[..i + 1]) == Ids(chain[..i]) + {chain[i].id};
      }
      assert chain[..|chain|] == chain;
    }

    method UnbindOldSymbol(s: Id)
      requires Valid()
      modifies this`cache, this`hidden, this`oldb
      ensures State() == J.UnbindOld(old(State()), {s}) && Valid()
    {
      hide J.Stacks, J.Family, J.Distinct;
      ChainIdsOne(oldb, s);
      FamilyChain(oldb, cache, s);
      J.UnbindOldKeepsInv(State(), {s});
      RemoveChain(J.ChainOf(oldb, s));
      oldb := oldb - {s};
    }

    method UnbindNewSymbol(s: Id)
      requires Valid()
      modifies this`cache, this`hidden, this`newb
      ensures State() == J.UnbindNew(old(State()), {s}) && Valid()
    {
      hide J.Stacks, J.Family, J.Distinct;
      ChainIdsOne(newb, s);
      FamilyChain(newb, cache, s);
      J.UnbindNewKeepsInv(State(), {s});
      RemoveChain(J.ChainOf(newb, s));
      newb := newb - {s};
    }

    method BindConceal(primary: Id)
      modifies this`hidden
      ensures State() == J.Conceal(old(State()), {primary})
    {
      ChainIdsOne(oldb, primary);
      var chain := J.ChainOf(oldb, primary);
      for i := 0 to |chain|
        invariant hidden == old(hidden) + Ids(chain[..i])
      {
        hidden := hidden + {chain[i].id};
        assert chain[..i + 1] == chain[..i] + [chain[i]];
        assert Ids(chain[..i + 1]) == Ids(chain[..i]) + {chain[i].id};
      }
      assert chain[..|chain|] == chain;
    }

    method BindReveal(primary: Id)
      modifies this`hidden
      ensures State() == J.Reveal(old(State()), {primary})
    {
      ChainIdsOne(oldb, primary);
      var chain := J.ChainOf(oldb, primary);
      for i := 0 to |chain|
        invariant hidden == old(hidden) - Ids(chain[..i])
      {
        hidden := hidden - {chain[i].id};
        assert chain[..i + 1] == chain[..i] + [chain[i]];
        assert Ids(chain[..i + 1]) == Ids(chain[..i]) + {chain[i].id};
      }
      assert chain[..|chain|] == chain;
    }

    /** The symbols whose old bindings a commit removes, in some order of the primaries. */
    method FindCommitSet() returns (res: J.Result<seq<Id>>)
      ensures match J.CommitSet(rules, newb.Keys)
              case Done(undo) => res.Done? && Elements(res.value) == undo
              case Raised(e) => res == J.Raised(e)
    {
      var undo: seq<Id> := [];
      var keys := newb.Keys;
      while keys != {}
        invariant keys <= newb.Keys
        invariant forall p | p in newb.Keys - keys :: rules.At(p).menu.Some?
        invariant Elements(undo) == J.UndoneBy(rules, newb.Keys - keys)
        decreases keys
      {
        var p :| p in keys;
        if rules.At(p).menu.None? { return J.Raised(J.AttributeError); }
        undo := undo + J.Undone(rules, p);
        assert newb.Keys - (keys - {p}) == (newb.Keys - keys) + {p};
        UndoneMore(rules, newb.Keys - keys, p);
        keys := keys - {p};
      }
      assert newb.Keys - keys == newb.Keys;
      res := J.Done(undo);
    }

    method BindCommit() returns (res: Outcome)
      requires Valid()
      requires J.CommitSet(rules, newb.Keys).Done? ==> newb.Keys <= J.CommitSet(rules, newb.Keys).value
      modifies this
      ensures match J.CommitSet(rules, old(newb).Keys)
              case Done(undo) => res.Done? && State() == J.BindCommit(old(State()), undo) && Valid()
              case Raised(e) => res == J.Raised(e)
    {
      hide J.Inv, J.Drop, J.ChainIds, J.UndoneBy;
      var undo :- FindCommitSet();
      UnbindOldNone(State());
      assert Elements(undo[..0]) == {};
      for i := 0 to |undo|
        invariant Valid() && State() == J.UnbindOld(old(State()), Elements(undo[..i]))
      {
        UnbindOldSymbol(undo[i]);
        UnbindOldMore(old(State()), Elements(undo[..i]), undo[i]);
        assert undo[..i + 1] == undo[..i] + [undo[i]];
        assert Elements(undo[..i + 1]) == Elements(undo[..i]) + {undo[i]};
      }
      assert undo[..|undo|] == undo;
      J.BindCommitKeepsInv(old(State()), Elements(undo));
      oldb, newb := oldb + newb, map[];
      res := J.Done(());
    }

    method Rollback()
      requires Valid()
      modifies this
      ensures State() == J.Rollback(old(State())) && Valid()
    {
      hide J.Inv, J.Drop, J.ChainIds;
      touched := [];
      SettledInv(old(State()), State());
      var keys := newb.Keys;
      ghost var start := State();
      UnbindNewNone(start);
      assert start.newb.Keys - keys == {};
      while keys != {}
        invariant keys <= start.newb.Keys
        invariant Valid() && State() == J.UnbindNew(start, start.newb.Keys - keys)
        decreases keys
      {
        var p :| p in keys;
        UnbindNewSymbol(p);
        UnbindNewMore(start, start.newb.Keys - keys, p);
        assert start.newb.Keys - (keys - {p}) == (start.newb.Keys - keys) + {p};
        keys := keys - {p};
      }
      assert start.newb.Keys - {} == start.newb.Keys;
    }

    // ----- checking and committing

    method SaneCheck()
      requires |reduced| == |rules.constraints|
      modifies this`changesToFrozen
      ensures State() == S.SaneCheck(rules, old(State()))
    {
      for i := 0 to |rules.constraints|
        invariant State() == old(State()).(changesToFrozen := old(changesToFrozen) +
                                             S.Failures(rules, J.ViewOf(old(State())), reduced[..i]))
      {
        assert reduced[..i + 1][..i] == reduced[..i];
        if Eval(rules, J.ViewOf(State()), reduced[i]) == N {
          changesToFrozen := changesToFrozen + [J.Unmet(i)];
        }
      }
      assert reduced[..|reduced|] == reduced;
    }

    /** Appends e to the list of each of the symbols that does not have it yet. */
    static method Register(table: map<Id, seq<Expr>>, e: Expr, symbols: seq<Id>) returns (after: map<Id, seq<Expr>>)
      ensures after.Keys == table.Keys
      ensures forall t | t in table :: after[t] == Noted(table[t], e, t in symbols)
    {
      after := table;
      for j := 0 to |symbols|
        invariant after.Keys == table.Keys
        invariant forall t | t in table :: after[t] == Noted(table[t], e, t in symbols[..j])
      {
        var s := symbols[j];
        assert forall t :: t in symbols[..j + 1] <==> t in symbols[..j] || t == s;
        if s in after && e !in after[s] {
          after := after[s := after[s] + [e]];
        }
      }
      assert symbols[..|symbols|] == symbols;
    }

    method OptimizeConstraintAccess()
      modifies this`access
      ensures access == Access(rules, reduced)
    {
      var table: map<Id, seq<Expr>> := map[];
      for s := 0 to |rules.symbols|
        invariant forall t: Id :: t in table <==> t < s
        invariant forall t | t in table :: table[t] == []
      {
        table := table[s := []];
      }
      for i := 0 to |reduced|
        invariant forall t: Id :: t in table <==> t < |rules.symbols|
        invariant forall t | t in table :: table[t] == Watching(rules, reduced[..i], t)
      {
        assert reduced[..i + 1][..i] == reduced[..i];
        table := Register(table, reduced[i], Flatten(rules, reduced[i]));
      }
      assert reduced[..|reduced|] == reduced;
      access := table;
    }

    method FreezeSymbol(s: Id)
      modifies this`iced
      ensures iced == S.Freeze(rules, old(iced), s)
    {
      iced := iced + {s};
      var menu := rules.At(s).menu;
      if menu.Some? && rules.At(menu.value).kind.ChoicesKind? {
        iced := iced + {menu.value};
        var items := rules.At(menu.value).items;
        for i := 0 to |items|
          invariant iced == old(iced) + {s} + {menu.value} + Elements(items[..i])
        {
          iced := iced + {items[i]};
          assert items[..i + 1] == items[..i] + [items[i]];
          assert Elements(items[..i + 1]) == Elements(items[..i]) + {items[i]};
        }
        assert items[..|items|] == items;
      }
    }

    /** Puts every formula that the frozen symbols decide out of the way. */
    method SimplifyReduced() returns (res: Outcome)
      modifies this`reduced
      ensures match S.SimplifyAll(rules, S.FrozenSet(rules, old(State())) + chilled.Keys, J.ViewOf(old(State())),
                                  old(reduced))
              case Done(es) => res.Done? && reduced == es
              case Raised(e) => res == J.Raised(e)
    {
      hide S.Simplify, S.FrozenSet, J.Visible;
      var fixed, view := S.FrozenSet(rules, State()) + chilled.Keys, J.ViewOf(State());
      ghost var start := reduced;
      PrependNone(S.SimplifyAll(rules, fixed, view, start));
      for i := 0 to |reduced|
        invariant |reduced| == |start| && reduced[i..] == start[i..]
        invariant S.SimplifyAll(rules, fixed, view, start) ==
                  Prepend(reduced[..i], S.SimplifyAll(rules, fixed, view, start[i..]))
      {
        assert reduced[i] == start[i..][0] && start[i..][1..] == start[i + 1..];
        var e :- S.Simplify(rules, fixed, view, reduced[i]);
        ghost var before := reduced;
        reduced := reduced[i := e];
        assert reduced[..i + 1] == before[..i] + [e];
        assert reduced[i + 1..] == before[i..][1..];
        PrependOne(before[..i], e, S.SimplifyAll(rules, fixed, view, start[i + 1..]));
      }
      assert reduced[..|reduced|] == reduced;
      res := J.Done(());
    }

    method FreezeMarked(marks: seq<Id>)
      modifies this`iced
      ensures iced == S.FreezeAll(rules, old(iced), marks)
    {
      hide S.Freeze;
      for i := 0 to |marks|
        invariant S.FreezeAll(rules, iced, marks[i..]) == S.FreezeAll(rules, old(iced), marks)
      {
        assert marks[i..][0] == marks[i] && marks[i..][1..] == marks[i + 1..];
        FreezeSymbol(marks[i]);
      }
    }

    /** Freezes every touched symbol, and simplifies the formulas only then. */
    method FreezeTouched() returns (res: Outcome)
      modifies this
      ensures Did(S.FreezeTouched(rules, old(State())), res)
    {
      hide S.FreezeAll, S.SimplifyAll, S.FrozenSet, J.Visible, Watching, Access;
      FreezeMarked(touched);
      touched := [];
      var _ :- SimplifyReduced();
      OptimizeConstraintAccess();
      res := J.Done(());
    }

    method Settle()
      modifies this`tritsEnabled, this`touched
      ensures State() == S.Settle(rules, old(State()))
    {
      if rules.tritTie.Some? && rules.tritTie.value in touched {
        tritsEnabled := EvalSymbol(rules, J.ViewOf(State()), rules.tritTie.value) != N;
      }
      touched := [];
    }

    method Commit(freeze: bool) returns (res: Outcome)
      requires Valid()
      requires J.CommitSet(rules, newb.Keys).Done? ==> newb.Keys <= J.CommitSet(rules, newb.Keys).value
      modifies this
      ensures Did(S.Commit(rules, old(State()), freeze), res)
    {
      hide J.Inv, J.BindCommit, J.CommitSet, S.FreezeTouched, S.Settle;
      FreezeTouchedJournal(rules, State());
      if freeze {
        var _ :- FreezeTouched();
      } else {
        Settle();
      }
      S.SameJournalInv(old(State()), State());
      res := BindCommit();
    }

    // ----- setting symbols

    ghost predicate DidCount(spec: J.Result<(J.State, nat)>, res: J.Result<nat>)
      reads this
    {
      match spec
      case Done((st, n)) => res == J.Done(n) && State() == st
      case Raised(e) => res == J.Raised(e)
    }

    method SetInternal(fuel: nat, s: Id, value: Trit, source: Id, sort: J.Sort) returns (res: Outcome)
      modifies this
      ensures Did(P.SetInternal(fuel, rules, old(State()), s, value, source, sort), res)
      decreases fuel, 0
    {
      hide P.SetUnfrozen, EvalSymbol, J.Visible;
      if fuel == 0 { return J.Raised(J.OutOfFuel); }
      touched := touched + [s];
      var before := EvalSymbol(rules, J.ViewOf(State()), s);
      if before == value {
        if s == source || J.IsFrozen(rules, State(), s) { return J.Done(()); }
      } else if J.IsFrozen(rules, State(), s) {
        if before.Less(value) {
          changesToFrozen := changesToFrozen + [J.FrozenChange(s)];
        }
        return J.Done(());
      }
      res := SetUnfrozen(fuel - 1, s, value, source, sort);
    }

    method SetUnfrozen(fuel: nat, s: Id, value: Trit, source: Id, sort: J.Sort) returns (res: Outcome)
      modifies this
      ensures Did(P.SetUnfrozen(fuel, rules, old(State()), s, value, source, sort), res)
      decreases fuel, 1
    {
      hide J.Bind, J.ChainIds, P.SideEffects;
      if s in chilled && chilled[s] != source { return J.Raised(J.Unsatisfiable); }
      chilled := chilled[s := source];
      var _ :- BindSymbol(s, value, source, sort);
      BindConceal(s);
      var _ :- SideEffects(fuel, s, value, source, sort);
      BindReveal(s);
      res := J.Done(());
    }

    method SideEffects(fuel: nat, s: Id, value: Trit, source: Id, sort: J.Sort) returns (res: Outcome)
      modifies this
      ensures Did(P.SideEffects(fuel, rules, old(State()), s, value, source, sort), res)
      decreases fuel, 0
    {
      if fuel == 0 { return J.Raised(J.OutOfFuel); }
      if value != N {
        var _ :- SetSiblings(fuel - 1, rules.At(s).choicegroup, source);
      }
      if rules.tritTie == Some(s) && value == N {
        var _ :- RaiseTrits(fuel - 1, source);
      }
      if rules.At(s).Logical() {
        var _ :- ForceRelatives(fuel - 1, s, value, source, sort);
      }
      res := Deduce(fuel - 1, s, source);
    }

    method SetSiblings(fuel: nat, siblings: seq<Id>, source: Id) returns (res: Outcome)
      modifies this
      ensures Did(P.SetSiblings(fuel, rules, old(State()), siblings, source), res)
      decreases fuel, 1
    {
      for i := 0 to |siblings|
        invariant P.SetSiblings(fuel, rules, State(), siblings[i..], source) ==
                  P.SetSiblings(fuel, rules, old(State()), siblings, source)
      {
        assert siblings[i..][0] == siblings[i] && siblings[i..][1..] == siblings[i + 1..];
        var _ :- SetInternal(fuel, siblings[i], N, source, J.Plain);
      }
      res := J.Done(());
    }

    method RaiseTrits(fuel: nat, source: Id) returns (res: Outcome)
      modifies this
      ensures Did(P.RaiseTrits(fuel, rules, old(State()), rules.dictionary, source), res)
      decreases fuel, 1
    {
      var entries := rules.dictionary;
      for i := 0 to |entries|
        invariant P.RaiseTrits(fuel, rules, State(), entries[i..], source) ==
                  P.RaiseTrits(fuel, rules, old(State()), entries, source)
      {
        assert entries[i..][0] == entries[i] && entries[i..][1..] == entries[i + 1..];
        var entry := rules.At(entries[i]);
        if entry.kind.TritKind? && !entry.derived && EvalSymbol(rules, J.ViewOf(State()), entries[i]) == M {
          var _ :- SetInternal(fuel, entries[i], Y, source, J.Plain);
        }
      }
      res := J.Done(());
    }

    method ForceRelatives(fuel: nat, s: Id, value: Trit, source: Id, sort: J.Sort) returns (res: Outcome)
      modifies this
      ensures Did(P.ForceRelatives(fuel, rules, old(State()), s, value, source, sort), res)
      decreases fuel, 0
    {
      if fuel == 0 { return J.Raised(J.OutOfFuel); }
      if value != N && !sort.AfterLesser? {
        var above :- P.MenuAncestors(rules, s);
        var _ :- ForceAllAncestors(fuel - 1, s, source, value, rules.At(s).ancestors + above);
      }
      if value != Y && !sort.AfterGreater? {
        var _ :- ForceAllDependents(fuel - 1, s, source, value, rules.At(s).dependents);
      }
      res := J.Done(());
    }

    method ForceAncestors(fuel: nat, dependent: Id, source: Id, value: Trit, ancestor: Id) returns (res: Outcome)
      modifies this
      ensures Did(P.ForceAncestors(fuel, rules, old(State()), dependent, source, value, ancestor), res)
      decreases fuel, 0
    {
      if fuel == 0 { return J.Raised(J.OutOfFuel); }
      if rules.At(dependent).Logical() && rules.At(ancestor).Logical() && value != N {
        var forced := P.AncestorValue(rules, State(), dependent, value, ancestor);
        var _ :- SetInternal(fuel - 1, ancestor, forced, source, J.AfterGreater);
      }
      var _ :- ForceAllAncestors(fuel - 1, dependent, source, value, rules.At(ancestor).ancestors);
      var above :- P.MenuAncestors(rules, ancestor);
      res := ForceAllAncestors(fuel - 1, dependent, source, value, above);
    }

    method ForceAllAncestors(fuel: nat, dependent: Id, source: Id, value: Trit, ancestors: seq<Id>)
      returns (res: Outcome)
      modifies this
      ensures Did(P.ForceAllAncestors(fuel, rules, old(State()), dependent, source, value, ancestors), res)
      decreases fuel, 1
    {
      for i := 0 to |ancestors|
        invariant P.ForceAllAncestors(fuel, rules, State(), dependent, source, value, ancestors[i..]) ==
                  P.ForceAllAncestors(fuel, rules, old(State()), dependent, source, value, ancestors)
      {
        assert ancestors[i..][0] == ancestors[i] && ancestors[i..][1..] == ancestors[i + 1..];
        var _ :- ForceAncestors(fuel, dependent, source, value, ancestors[i]);
      }
      res := J.Done(());
    }

    method ForceDependents(fuel: nat, guard: Id, source: Id, value: Trit, dependent: Id) returns (res: Outcome)
      modifies this
      ensures Did(P.ForceDependents(fuel, rules, old(State()), guard, source, value, dependent), res)
      decreases fuel, 0
    {
      if fuel == 0 { return J.Raised(J.OutOfFuel); }
      var current := EvalSymbol(rules, J.ViewOf(State()), dependent);
      if rules.At(guard).Logical() && rules.At(dependent).Logical() && value.Less(current) {
        var forced := P.DependentValue(rules, State(), guard, value, dependent, current);
        var _ :- SetInternal(fuel - 1, dependent, forced, source, J.AfterLesser);
      }
      var below := rules.At(dependent);
      var lower := if below.items != [] then below.items else below.dependents;
      res := ForceAllDependents(fuel - 1, guard, source, value, lower);
    }

    method ForceAllDependents(fuel: nat, guard: Id, source: Id, value: Trit, dependents: seq<Id>)
      returns (res: Outcome)
      modifies this
      ensures Did(P.ForceAllDependents(fuel, rules, old(State()), guard, source, value, dependents), res)
      decreases fuel, 1
    {
      for i := 0 to |dependents|
        invariant P.ForceAllDependents(fuel, rules, State(), guard, source, value, dependents[i..]) ==
                  P.ForceAllDependents(fuel, rules, old(State()), guard, source, value, dependents)
      {
        assert dependents[i..][0] == dependents[i] && dependents[i..][1..] == dependents[i + 1..];
        var _ :- ForceDependents(fuel, guard, source, value, dependents[i]);
      }
      res := J.Done(());
    }

    method Deduce(fuel: nat, s: Id, source: Id) returns (res: Outcome)
      modifies this
      ensures Did(P.Deduce(fuel, rules, old(State()), s, source), res)
      decreases fuel, 0
    {
      if fuel == 0 { return J.Raised(J.OutOfFuel); }
      if interactive && !suppressions && rules.At(s).visibility.Some? {
        var _ :- Constrain(fuel - 1, rules.At(s).visibility.value, source, Y);
      }
      res := ConstrainRounds(fuel - 1, P.Watched(State(), s), source);
    }

    method Constrain(fuel: nat, wff: Expr, source: Id, fixed: Trit) returns (res: J.Result<nat>)
      modifies this
      ensures DidCount(P.Constrain(fuel, rules, old(State()), wff, source, fixed), res)
      decreases fuel, 0
    {
      if fuel == 0 { return J.Raised(J.OutOfFuel); }
      match wff
      case Ref(s) => res := ConstrainSymbol(fuel - 1, s, source, fixed);
      case Cond(g, a, b) =>
        var holds := Eval(rules, J.ViewOf(State()), g) != N;
        res := Constrain(fuel - 1, if holds then a else b, source, fixed);
      case Bin(op, a, b) =>
        if op.Implies? && fixed == Y {
          if Eval(rules, J.ViewOf(State()), a) == N { return J.Done(0); }
          res := Constrain(fuel - 1, b, source, fixed);
        } else if (op.And? && fixed == Y) || (op.Or? && fixed == N) {
          var n :- Constrain(fuel - 1, a, source, fixed);
          var k :- Constrain(fuel - 1, b, source, fixed);
          res := J.Done(n + k);
        } else if op.Relational() && P.Comparable(rules, a) && P.Comparable(rules, b) {
          res := Relate(fuel - 1, if fixed == N then P.Converse(op) else op, a, b, source);
        } else {
          res := J.Done(0);
        }
      case Not(_) => res := J.Raised(J.IndexError);
      case Lit(_) => res := J.Raised(J.AttributeError);
      case One => res := J.Raised(J.TypeError);
    }

    method ConstrainSymbol(fuel: nat, s: Id, source: Id, fixed: Trit) returns (res: J.Result<nat>)
      modifies this
      ensures DidCount(P.ConstrainSymbol(fuel, rules, old(State()), s, source, fixed), res)
      decreases fuel, 0
    {
      if fuel == 0 { return J.Raised(J.OutOfFuel); }
      if rules.At(s).derived {
        if rules.At(s).default.None? { return J.Raised(J.TypeError); }
        res := Constrain(fuel - 1, rules.At(s).default.value, source, fixed);
      } else if EvalSymbol(rules, J.ViewOf(State()), s) == fixed {
        var _ :- BindSymbol(s, fixed, source, J.Plain);
        res := J.Done(0);
      } else {
        var _ :- SetInternal(fuel - 1, s, fixed, source, J.Plain);
        res := J.Done(1);
      }
    }

    method Relate(fuel: nat, op: Op, a: Expr, b: Expr, source: Id) returns (res: J.Result<nat>)
      modifies this
      ensures DidCount(P.Relate(fuel, rules, old(State()), op, a, b, source), res)
      decreases fuel, 0
    {
      if fuel == 0 { return J.Raised(J.OutOfFuel); }
      if P.Mutable(rules, State(), a) == P.Mutable(rules, State(), b) { return J.Done(0); }
      var x, y := Eval(rules, J.ViewOf(State()), a), Eval(rules, J.ViewOf(State()), b);
      if op.Unequal? {
        res := if P.IsBool(rules, a) && P.IsBool(rules, b) then J.Raised(J.NotATrit) else J.Done(0);
      } else if !op.Equal? && Apply(op, x, y) == Y {
        res := J.Done(0);
      } else if op.Below? || op.Above? {
        res := J.Raised(J.NameError);
      } else if P.Mutable(rules, State(), a) {
        res := Constrain(fuel - 1, a, source, y);
      } else {
        res := Constrain(fuel - 1, b, source, x);
      }
    }

    method ConstrainAll(fuel: nat, wffs: seq<Expr>, source: Id) returns (res: J.Result<nat>)
      modifies this
      ensures DidCount(P.ConstrainAll(fuel, rules, old(State()), wffs, source), res)
      decreases fuel, 1
    {
      var count := 0;
      for i := 0 to |wffs|
        invariant P.ConstrainAll(fuel, rules, old(State()), wffs, source) ==
                  Counted(count, P.ConstrainAll(fuel, rules, State(), wffs[i..], source))
      {
        assert wffs[i..][0] == wffs[i] && wffs[i..][1..] == wffs[i + 1..];
        var n :- Constrain(fuel, wffs[i], source, Y);
        count := count + n;
      }
      res := J.Done(count);
    }

    method ConstrainRounds(fuel: nat, wffs: seq<Expr>, source: Id) returns (res: Outcome)
      modifies this
      ensures Did(P.ConstrainRounds(fuel, rules, old(State()), wffs, source), res)
      decreases fuel, 0
    {
      var left: nat := fuel;
      while left != 0
        invariant left <= fuel
        invariant P.ConstrainRounds(left, rules, State(), wffs, source) ==
                  P.ConstrainRounds(fuel, rules, old(State()), wffs, source)
        decreases left
      {
        var count :- ConstrainAll(left - 1, wffs, source);
        if count == 0 { return J.Done(()); }
        left := left - 1;
      }
      res := J.Raised(J.OutOfFuel);
    }

    method ConcealAll(primaries: seq<Id>)
      modifies this`hidden
      ensures State() == J.Conceal(old(State()), Elements(primaries))
    {
      hide J.ChainIds;
      ConcealNone(State());
      assert Elements(primaries[..0]) == {};
      for i := 0 to |primaries|
        invariant State() == J.Conceal(old(State()), Elements(primaries[..i]))
      {
        BindConceal(primaries[i]);
        ChainIdsUnion(oldb, Elements(primaries[..i]), primaries[i]);
        assert primaries[..i + 1] == primaries[..i] + [primaries[i]];
        assert Elements(primaries[..i + 1]) == Elements(primaries[..i]) + {primaries[i]};
      }
      assert primaries[..|primaries|] == primaries;
    }

    method RevealAll(primaries: seq<Id>)
      modifies this`hidden
      ensures State() == J.Reveal(old(State()), Elements(primaries))
    {
      hide J.ChainIds;
      ConcealNone(State());
      assert Elements(primaries[..0]) == {};
      for i := 0 to |primaries|
        invariant State() == J.Reveal(old(State()), Elements(primaries[..i]))
      {
        BindReveal(primaries[i]);
        ChainIdsUnion(oldb, Elements(primaries[..i]), primaries[i]);
        assert primaries[..i + 1] == primaries[..i] + [primaries[i]];
        assert Elements(primaries[..i + 1]) == Elements(primaries[..i]) + {primaries[i]};
      }
      assert primaries[..|primaries|] == primaries;
    }

    /** Between calls nothing is pending; then a call that returns leaves nothing pending either. */
    ghost predicate Ready()
      reads this
    {
      S.Quiescent(State()) && |reduced| == |rules.constraints|
    }

    /** Propagates the setting; says which old bindings committing it would remove. */
    method Propose(fuel: nat, s: Id, value: Trit) returns (res: J.Result<seq<Id>>)
      modifies this
      ensures match S.Proposal(fuel, rules, old(State()), s, value)
              case Done((st, undo)) => res.Done? && Elements(res.value) == undo && State() == st
              case Raised(e) => res == J.Raised(e)
    {
      hide P.SetInternal, J.CommitSet;
      changesToFrozen := [];
      var _ :- SetInternal(fuel, s, value, s, J.Plain);
      chilled := map[];
      res := FindCommitSet();
    }

    method Decide(commitSet: seq<Id>, freeze: bool) returns (res: J.Result<bool>)
      requires Valid() && |reduced| == |rules.constraints|
      requires J.CommitSet(rules, newb.Keys) == J.Done(Elements(commitSet)) && newb.Keys <= Elements(commitSet)
      modifies this
      ensures match S.Decide(rules, old(State()), Elements(commitSet), freeze)
              case Done((st, accepted)) => res == J.Done(accepted) && State() == st
              case Raised(e) => res == J.Raised(e)
    {
      hide J.Inv, J.ChainIds, J.Drop, J.CommitSet, S.Commit, S.Failures, Elements;
      ConcealAll(commitSet);
      SaneCheck();
      StillInv(old(State()), State());
      if changesToFrozen == [] {
        var _ :- Commit(freeze);
        res := J.Done(true);
      } else {
        RevealAll(commitSet);
        StillInv(old(State()), State());
        Rollback();
        res := J.Done(false);
      }
    }

    method SetSymbol(fuel: nat, s: Id, value: Trit, freeze: bool) returns (res: J.Result<bool>)
      requires Ready() && S.MenuMatches(rules, s)
      modifies this
      ensures match S.SetSymbol(fuel, rules, old(State()), s, value, freeze)
              case Done((st, accepted)) => res == J.Done(accepted) && State() == st && Ready()
              case Raised(e) => res == J.Raised(e)
    {
      hide J.Inv, S.Proposal, S.Decide, T.Within, J.CommitSet, Elements;
      AfterSetSymbol(fuel, rules, State(), s, value, freeze);
      if S.Proposal(fuel, rules, State(), s, value).Done? {
        ProposalCommits(fuel, rules, State(), s, value);
      }
      var commitSet :- Propose(fuel, s, value);
      res := Decide(commitSet, freeze);
    }
  }

  lemma SettledInv(a: J.State, b: J.State)
    requires J.Inv(a) && b == a.(touched := b.touched)
    ensures J.Inv(b)
  {
    forall c | J.Stacked(b.cache, c) ensures J.Owned(b, c) {
      var p :| J.Owns(a.newb, p, c) || J.Owns(a.oldb, p, c);
    }
  }

  lemma StillInv(a: J.State, b: J.State)
    requires J.Inv(a) && b == a.(hidden := b.hidden, changesToFrozen := b.changesToFrozen)
    ensures J.Inv(b)
  {
    forall c | J.Stacked(b.cache, c) ensures J.Owned(b, c) {
      var p :| J.Owns(a.newb, p, c) || J.Owns(a.oldb, p, c);
    }
  }

  lemma ConcealNone(st: J.State)
    ensures J.Conceal(st, {}) == st && J.Reveal(st, {}) == st
  {
    assert J.ChainIds(st.oldb, {}) == {};
  }

  /** A proposal's primaries are in the set that committing it undoes. */
  lemma ProposalCommits(fuel: nat, r: Rules, st: J.State, s: Id, value: Trit)
    requires S.Quiescent(st) && S.MenuMatches(r, s) && S.Proposal(fuel, r, st, s, value).Done?
    ensures var (prop, undo) := S.Proposal(fuel, r, st, s, value).value;
            && J.CommitSet(r, prop.newb.Keys) == J.Done(undo) && prop.newb.Keys <= undo
            && J.Inv(prop) && prop.reduced == st.reduced
  {
    hide J.Inv;
    S.ProposalWithin(fuel, r, st, s, value);
  }

  lemma AfterSetSymbol(fuel: nat, r: Rules, st: J.State, s: Id, value: Trit, freeze: bool)
    requires S.Quiescent(st) && S.MenuMatches(r, s)
    ensures match S.SetSymbol(fuel, r, st, s, value, freeze)
            case Done((st', _)) => S.Quiescent(st') && |st'.reduced| == |st.reduced|
            case Raised(_) => true
  {
    hide S.Quiescent, S.Proposal, S.Commit, S.SaneCheck, J.Conceal, T.Within;
    var res := S.SetSymbol(fuel, r, st, s, value, freeze);
    if res.Done? {
      S.RejectedIsUndone(fuel, r, st, s, value, freeze);
      if res.value.1 {
        S.AcceptedCommit(fuel, r, st, s, value, freeze);
        S.ProposalWithin(fuel, r, st, s, value);
        var (prop, undo) := S.Proposal(fuel, r, st, s, value).value;
        S.ProposalFormulas(r, st, prop, s);
        CommitLength(r, prop, undo, freeze);
      }
    }
  }

  lemma CommitLength(r: Rules, prop: J.State, undo: set<Id>, freeze: bool)
    ensures var res := S.Commit(r, S.SaneCheck(r, J.Conceal(prop, undo)), freeze);
            res.Done? ==> |res.value.reduced| == |prop.reduced|
  {
  }

  lemma UnbindNewNone(st: J.State)
    ensures J.UnbindNew(st, {}) == st
  {
    assert J.ChainIds(st.newb, {}) == {};
    DropNothing(st.cache);
  }

  lemma UnbindOldNone(st: J.State)
    ensures J.UnbindOld(st, {}) == st
  {
    assert J.ChainIds(st.oldb, {}) == {};
    DropNothing(st.cache);
  }
}
