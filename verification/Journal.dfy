/** The journal of bindings (contrib/cml2/cmlsystem.py): its state, its steps as functions, and what they keep. */
module Journal {
  import opened Options
  import opened Rulebase

  /** Bindings are objects of the source; `id` is their identity. */
  datatype Binding = Binding(id: nat, symbol: Id, value: Trit)

  /** A side-effect chain, latest binding first. */
  type Chain = seq<Binding>

  datatype Violation = FrozenChange(symbol: Id) | Unmet(constraint: nat)

  datatype Error = OutOfFuel | Unsatisfiable | AttributeError | NameError | IndexError | TypeError | NotATrit

  datatype Result<+T> = Done(value: T) | Raised(error: Error) {
    predicate IsFailure() { Raised? }
    function PropagateFailure<U>(): Result<U>
      requires Raised?
    {
      Raised(error)
    }
    function Extract(): T
      requires Done?
    {
      value
    }
  }

  /**
   * cache: each symbol's binding stack, topmost first.  newb, oldb: the uncommitted and the committed chains, by
   * primary.  hidden: the bindings whose visible flag is off.  access: the formulas each symbol watches.
   */
  datatype State = State(
    cache: map<Id, seq<Binding>>,
    newb: map<Id, Chain>,
    oldb: map<Id, Chain>,
    hidden: set<nat>,
    nextId: nat,
    iced: set<Id>,
    chilled: map<Id, Id>,
    touched: seq<Id>,
    changesToFrozen: seq<Violation>,
    reduced: seq<Expr>,
    access: map<Id, seq<Expr>>,
    tritsEnabled: bool,
    interactive: bool,
    suppressions: bool)

  // ----- reading the stacks

  function Shown(cs: seq<Binding>, hidden: set<nat>): Option<Trit> {
    if cs == [] then None
    else if cs[0].id !in hidden then Some(cs[0].value)
    else Shown(cs[1..], hidden)
  }

  function Visible(cache: map<Id, seq<Binding>>, hidden: set<nat>): View {
    map s | s in cache && Shown(cache[s], hidden).Some? :: Shown(cache[s], hidden).value
  }

  function ViewOf(st: State): View { Visible(st.cache, st.hidden) }

  predicate IsFrozen(r: Rules, st: State, s: Id) { s in st.iced || r.At(s).kind.MessageKind? }

  // ----- binding

  /** AfterGreater (sort = 1) and AfterLesser (sort = -1) hide the new binding behind greater or lesser ones. */
  datatype Sort = Plain | AfterGreater | AfterLesser

  predicate Precedes(a: Trit, b: Trit, sort: Sort) {
    (sort.AfterGreater? && b.Less(a)) || (sort.AfterLesser? && a.Less(b))
  }

  function InsertPoint(cs: seq<Binding>, value: Trit, sort: Sort): (k: nat)
    ensures k <= |cs|
    ensures forall i | 0 <= i < k :: Precedes(cs[i].value, value, sort)
    ensures k < |cs| ==> !Precedes(cs[k].value, value, sort)
  {
    if cs == [] || !Precedes(cs[0].value, value, sort) then 0 else 1 + InsertPoint(cs[1..], value, sort)
  }

  function Insert(cs: seq<Binding>, b: Binding, sort: Sort): seq<Binding> {
    var k := InsertPoint(cs, b.value, sort);
    cs[..k] + [b] + cs[k..]
  }

  function ChainOf(m: map<Id, Chain>, p: Id): Chain { if p in m then m[p] else [] }

  predicate Recorded(chain: Chain, s: Id, value: Trit) {
    exists b :: b in chain && b.symbol == s && b.value == value
  }

  function Bind(st: State, s: Id, value: Trit, source: Id, sort: Sort): Result<State> {
    var chain := ChainOf(st.newb, source);
    if Recorded(chain, s, value) then Done(st)
    else if s !in st.cache then Raised(AttributeError)
    else
      var b := Binding(st.nextId, s, value);
      Done(st.(newb := st.newb[source := [b] + chain],
               cache := st.cache[s := Insert(st.cache[s], b, sort)],
               nextId := st.nextId + 1))
  }

  // ----- removing and hiding chains

  function ChainIds(m: map<Id, Chain>, primaries: set<Id>): set<nat> {
    set p, b | p in primaries && p in m && b in m[p] :: b.id
  }

  function Without(cs: seq<Binding>, ids: set<nat>): seq<Binding> {
    if cs == [] then []
    else if cs[0].id in ids then Without(cs[1..], ids)
    else [cs[0]] + Without(cs[1..], ids)
  }

  function Drop(cache: map<Id, seq<Binding>>, ids: set<nat>): map<Id, seq<Binding>> {
    map s | s in cache :: Without(cache[s], ids)
  }

  function Conceal(st: State, primaries: set<Id>): State {
    st.(hidden := st.hidden + ChainIds(st.oldb, primaries))
  }

  function Reveal(st: State, primaries: set<Id>): State {
    st.(hidden := st.hidden - ChainIds(st.oldb, primaries))
  }

  /** A binding's visible flag goes away with the binding. */
  function UnbindOld(st: State, primaries: set<Id>): State {
    var ids := ChainIds(st.oldb, primaries);
    st.(cache := Drop(st.cache, ids), hidden := st.hidden - ids, oldb := st.oldb - primaries)
  }

  function UnbindNew(st: State, primaries: set<Id>): State {
    var ids := ChainIds(st.newb, primaries);
    st.(cache := Drop(st.cache, ids), hidden := st.hidden - ids, newb := st.newb - primaries)
  }

  // ----- commit and rollback

  /** A primary in a choices menu drags its siblings along. */
  function Undone(r: Rules, primary: Id): seq<Id> {
    match r.At(primary).menu
    case Some(m) => if r.At(m).kind.ChoicesKind? then r.At(m).items else [primary]
    case None => [primary]
  }

  function CommitSet(r: Rules, primaries: set<Id>): Result<set<Id>> {
    if exists p | p in primaries :: r.At(p).menu.None? then Raised(AttributeError)
    else Done(UndoneBy(r, primaries))
  }

  function UndoneBy(r: Rules, primaries: set<Id>): set<Id> { set p, s | p in primaries && s in Undone(r, p) :: s }

  function BindCommit(st: State, undo: set<Id>): State {
    var st := UnbindOld(st, undo);
    st.(oldb := st.oldb + st.newb, newb := map[])
  }

  function Rollback(st: State): State {
    UnbindNew(st, st.newb.Keys).(touched := [])
  }

  // ----- the invariant

  ghost predicate Distinct(cs: seq<Binding>) { forall i, j | 0 <= i < j < |cs| :: cs[i].id != cs[j].id }

  ghost predicate Owns(m: map<Id, Chain>, p: Id, b: Binding) { p in m && b in m[p] }

  ghost predicate Stacked(cache: map<Id, seq<Binding>>, b: Binding) { b.symbol in cache && b in cache[b.symbol] }

  ghost predicate Owned(st: State, b: Binding) { exists p :: Owns(st.newb, p, b) || Owns(st.oldb, p, b) }

  /** Every binding of a chain family is stacked, once in its chain, and on no other chain of the family. */
  ghost predicate Family(m: map<Id, Chain>, cache: map<Id, seq<Binding>>) {
    && (forall p, b | Owns(m, p, b) :: Stacked(cache, b))
    && (forall p | p in m :: Distinct(m[p]))
    && (forall p, q, b | Owns(m, p, b) && Owns(m, q, b) :: p == q)
  }

  ghost predicate Stacks(cache: map<Id, seq<Binding>>, nextId: nat) {
    && (forall s | s in cache :: Distinct(cache[s]))
    && (forall s, b | s in cache && b in cache[s] :: b.symbol == s && b.id < nextId)
    && (forall b, c | Stacked(cache, b) && Stacked(cache, c) && b.id == c.id :: b == c)
  }

  /** The partition: stacked bindings and chained bindings are the same ones, each on exactly one chain. */
  ghost predicate Inv(st: State) {
    && Stacks(st.cache, st.nextId)
    && Family(st.newb, st.cache) && Family(st.oldb, st.cache)
    && (forall p, q, b | Owns(st.newb, p, b) :: !Owns(st.oldb, q, b))
    && (forall b | Stacked(st.cache, b) :: Owned(st, b))
  }

  // ----- lemmas about stacks

  lemma {:induction false} WithoutMembers(cs: seq<Binding>, ids: set<nat>)
    ensures forall b :: b in Without(cs, ids) <==> b in cs && b.id !in ids
  {
    if cs == [] {
    } else {
      WithoutMembers(cs[1..], ids);
    }
  }

  lemma {:induction false} WithoutDistinct(cs: seq<Binding>, ids: set<nat>)
    requires Distinct(cs)
    ensures Distinct(Without(cs, ids))
  {
    if cs == [] {
    } else {
      WithoutDistinct(cs[1..], ids);
      WithoutMembers(cs[1..], ids);
    }
  }

  lemma {:induction false} WithoutAppend(cs: seq<Binding>, ds: seq<Binding>, ids: set<nat>)
    ensures Without(cs + ds, ids) == Without(cs, ids) + Without(ds, ids)
  {
    if cs == [] {
      assert cs + ds == ds;
    } else {
      assert (cs + ds)[1..] == cs[1..] + ds;
      WithoutAppend(cs[1..], ds, ids);
    }
  }

  /** Two id sets that agree on a stack remove the same bindings from it. */
  lemma {:induction false} WithoutCongruence(cs: seq<Binding>, ids: set<nat>, others: set<nat>)
    requires forall b | b in cs :: b.id in ids <==> b.id in others
    ensures Without(cs, ids) == Without(cs, others)
  {
    if cs == [] {
    } else {
      WithoutCongruence(cs[1..], ids, others);
    }
  }

  lemma {:induction false} WithoutNone(cs: seq<Binding>, ids: set<nat>)
    requires forall b | b in cs :: b.id !in ids
    ensures Without(cs, ids) == cs
  {
    if cs == [] {
    } else {
      WithoutNone(cs[1..], ids);
    }
  }

  /** Hiding bindings and removing them show the same value. */
  lemma {:induction false} HideIsRemove(cs: seq<Binding>, ids: set<nat>, hidden: set<nat>)
    ensures Shown(Without(cs, ids), hidden) == Shown(cs, hidden + ids)
  {
    if cs == [] {
    } else {
      HideIsRemove(cs[1..], ids, hidden);
    }
  }

  lemma {:induction false} ShownCongruence(cs: seq<Binding>, hidden: set<nat>, others: set<nat>)
    requires forall b | b in cs :: b.id in hidden <==> b.id in others
    ensures Shown(cs, hidden) == Shown(cs, others)
  {
    if cs == [] {
    } else {
      ShownCongruence(cs[1..], hidden, others);
    }
  }

  lemma {:induction false} ShownSplit(cs: seq<Binding>, k: nat, hidden: set<nat>)
    requires k <= |cs|
    ensures Shown(cs, hidden) ==
            if Shown(cs[..k], hidden).Some? then Shown(cs[..k], hidden) else Shown(cs[k..], hidden)
  {
    if k == 0 {
    } else if cs[0].id in hidden {
      ShownSplit(cs[1..], k - 1, hidden);
      assert cs[..k][1..] == cs[1..][..k - 1];
    } else {
    }
  }

  lemma {:induction false} ShownAfter(cs: seq<Binding>, b: Binding, ds: seq<Binding>, hidden: set<nat>)
    requires b.id !in hidden
    ensures Shown(cs + [b] + ds, hidden) == if Shown(cs, hidden).Some? then Shown(cs, hidden) else Some(b.value)
  {
    var all := cs + [b] + ds;
    ShownSplit(all, |cs|, hidden);
    assert all[..|cs|] == cs && all[|cs|..] == [b] + ds;
  }

  /**
   * What a symbol shows after a sorted binding: the old value if a visible binding precedes the new one, else the new
   * one. So the visible value moves against the direction of the sort exactly when it precedes the new value but
   * everything the new binding went behind is hidden; never, if nothing of the stack is hidden.
   */
  lemma SortedInsertShown(cs: seq<Binding>, b: Binding, sort: Sort, hidden: set<nat>)
    requires b.id !in hidden
    ensures var passed := cs[..InsertPoint(cs, b.value, sort)];
            var (before, after) := (Shown(cs, hidden), Shown(Insert(cs, b, sort), hidden));
            && after == (if Shown(passed, hidden).Some? then before else Some(b.value))
            && (before.Some? ==>
                  (Precedes(before.value, after.value, sort) <==>
                     Precedes(before.value, b.value, sort) && Shown(passed, hidden).None?))
            && (before.Some? && cs[0].id !in hidden ==> !Precedes(before.value, after.value, sort))
  {
    var k := InsertPoint(cs, b.value, sort);
    ShownSplit(cs, k, hidden);
    ShownAfter(cs[..k], b, cs[k..], hidden);
  }

  // ----- what the steps keep

  lemma BindKeepsInv(st: State, s: Id, value: Trit, source: Id, sort: Sort)
    requires Inv(st) && Bind(st, s, value, source, sort).Done?
    ensures Inv(Bind(st, s, value, source, sort).value)
  {
    hide Insert, Stacks, Family;
    var chain := ChainOf(st.newb, source);
    if Recorded(chain, s, value) { return; }
    var st' := Bind(st, s, value, source, sort).value;
    var b := Binding(st.nextId, s, value);
    InsertKeepsStacks(st.cache, st.nextId, b, sort);
    PushKeepsFamily(st.newb, st.cache, st'.cache, st.nextId, source, b);
    PushKeepsFamilyAside(st.oldb, st.cache, st'.cache, b);
    FreshIsUnowned(st.oldb, st.cache, st.nextId, b);
    assert forall p, c :: Owns(st'.newb, p, c) <==> Owns(st.newb, p, c) || (p == source && c == b);
    assert Owns(st'.newb, source, b);
    forall c | Stacked(st'.cache, c) ensures Owned(st', c) {
      if c != b {
        var p :| Owns(st.newb, p, c) || Owns(st.oldb, p, c);
        assert Owns(st'.newb, p, c) || Owns(st'.oldb, p, c);
      }
    }
  }

  lemma FreshIsUnowned(m: map<Id, Chain>, cache: map<Id, seq<Binding>>, nextId: nat, b: Binding)
    requires Family(m, cache) && Stacks(cache, nextId) && b.id == nextId
    ensures forall p :: !Owns(m, p, b)
  {
  }

  lemma PushKeepsFamilyAside(m: map<Id, Chain>, cache: map<Id, seq<Binding>>, cache': map<Id, seq<Binding>>, b: Binding)
    requires Family(m, cache)
    requires forall c :: Stacked(cache', c) <==> Stacked(cache, c) || c == b
    ensures Family(m, cache')
  {
  }

  lemma InsertKeepsStacks(cache: map<Id, seq<Binding>>, nextId: nat, b: Binding, sort: Sort)
    requires Stacks(cache, nextId) && b.symbol in cache && b.id == nextId
    ensures var cache' := cache[b.symbol := Insert(cache[b.symbol], b, sort)];
            Stacks(cache', nextId + 1) && forall c :: Stacked(cache', c) <==> Stacked(cache, c) || c == b
  {
    hide Insert;
    InsertMembers(cache[b.symbol], b, sort);
  }

  lemma PushKeepsFamily(m: map<Id, Chain>, cache: map<Id, seq<Binding>>, cache': map<Id, seq<Binding>>, nextId: nat,
                        p: Id, b: Binding)
    requires Family(m, cache) && Stacks(cache, nextId) && b.id == nextId
    requires forall c :: Stacked(cache', c) <==> Stacked(cache, c) || c == b
    ensures Family(m[p := [b] + ChainOf(m, p)], cache')
  {
    var m' := m[p := [b] + ChainOf(m, p)];
    assert forall q, c :: Owns(m', q, c) <==> Owns(m, q, c) || (q == p && c == b);
    forall i | 0 <= i < |ChainOf(m, p)| ensures ChainOf(m, p)[i].id < nextId {
      assert Owns(m, p, ChainOf(m, p)[i]) && Stacked(cache, ChainOf(m, p)[i]);
    }
    assert Distinct(m'[p]);
  }

  lemma InsertMembers(cs: seq<Binding>, b: Binding, sort: Sort)
    ensures forall c :: c in Insert(cs, b, sort) <==> c in cs || c == b
    ensures Distinct(cs) && (forall c | c in cs :: c.id != b.id) ==> Distinct(Insert(cs, b, sort))
  {
    InsertAt(cs, b, InsertPoint(cs, b.value, sort));
  }

  lemma InsertAt(cs: seq<Binding>, b: Binding, k: nat)
    requires k <= |cs|
    ensures forall c :: c in cs[..k] + [b] + cs[k..] <==> c in cs || c == b
    ensures Distinct(cs) && (forall c | c in cs :: c.id != b.id) ==> Distinct(cs[..k] + [b] + cs[k..])
  {
    assert cs == cs[..k] + cs[k..];
  }

  lemma DropMembers(cache: map<Id, seq<Binding>>, ids: set<nat>)
    ensures forall b :: Stacked(Drop(cache, ids), b) <==> Stacked(cache, b) && b.id !in ids
  {
    forall s | s in cache ensures forall b :: b in Drop(cache, ids)[s] <==> b in cache[s] && b.id !in ids {
      WithoutMembers(cache[s], ids);
    }
  }

  lemma DropKeepsStacks(cache: map<Id, seq<Binding>>, nextId: nat, ids: set<nat>)
    requires Stacks(cache, nextId)
    ensures Stacks(Drop(cache, ids), nextId)
  {
    DropMembers(cache, ids);
    forall s | s in cache ensures Distinct(Drop(cache, ids)[s]) {
      WithoutDistinct(cache[s], ids);
    }
    forall s, b | s in cache && b in Drop(cache, ids)[s] ensures b.symbol == s && b.id < nextId {
      WithoutMembers(cache[s], ids);
      assert b in cache[s];
    }
    hide Without;
  }

  /** A chain family keeps its place when the chains of other bindings are removed. */
  lemma DropKeepsFamily(m: map<Id, Chain>, cache: map<Id, seq<Binding>>, ids: set<nat>)
    requires Family(m, cache) && forall p, b | Owns(m, p, b) :: b.id !in ids
    ensures Family(m, Drop(cache, ids))
  {
    DropMembers(cache, ids);
  }

  /** Ids of a family's chains: a stacked binding has one exactly when it lies on one of those chains. */
  lemma ChainIdsExact(m: map<Id, Chain>, cache: map<Id, seq<Binding>>, nextId: nat, primaries: set<Id>, b: Binding)
    requires Stacks(cache, nextId) && Family(m, cache) && Stacked(cache, b)
    ensures b.id in ChainIds(m, primaries) <==> exists p :: p in primaries && Owns(m, p, b)
  {
    if b.id in ChainIds(m, primaries) {
      var p, c :| p in primaries && p in m && c in m[p] && c.id == b.id;
      assert Owns(m, p, c) && Stacked(cache, c);
    }
    if exists p :: p in primaries && Owns(m, p, b) {
      var p :| p in primaries && Owns(m, p, b);
      assert p in m && b in m[p];
    }
  }

  lemma UnbindOldKeepsInv(st: State, primaries: set<Id>)
    requires Inv(st)
    ensures Inv(UnbindOld(st, primaries))
  {
    var st' := UnbindOld(st, primaries);
    var ids := ChainIds(st.oldb, primaries);
    DropKeepsStacks(st.cache, st.nextId, ids);
    DropMembers(st.cache, ids);
    forall p, b | Owns(st.newb, p, b) ensures b.id !in ids {
      ChainIdsExact(st.oldb, st.cache, st.nextId, primaries, b);
    }
    DropKeepsFamily(st.newb, st.cache, ids);
    assert forall p, b :: Owns(st'.oldb, p, b) <==> p !in primaries && Owns(st.oldb, p, b);
    forall p, b | Owns(st'.oldb, p, b) ensures Stacked(st'.cache, b) {
      ChainIdsExact(st.oldb, st.cache, st.nextId, primaries, b);
    }
    forall b | Stacked(st'.cache, b) ensures Owned(st', b) {
      ChainIdsExact(st.oldb, st.cache, st.nextId, primaries, b);
      var p :| Owns(st.newb, p, b) || Owns(st.oldb, p, b);
      assert Owns(st'.newb, p, b) || Owns(st'.oldb, p, b);
    }
  }

  lemma UnbindNewKeepsInv(st: State, primaries: set<Id>)
    requires Inv(st)
    ensures Inv(UnbindNew(st, primaries))
  {
    SwapKeepsInv(st);
    UnbindOldKeepsInv(Swap(st), primaries);
    SwapKeepsInv(UnbindOld(Swap(st), primaries));
    assert Swap(UnbindOld(Swap(st), primaries)) == UnbindNew(st, primaries);
  }

  /** The invariant does not tell the two chain families apart. */
  function Swap(st: State): State { st.(newb := st.oldb, oldb := st.newb) }

  lemma SwapKeepsInv(st: State)
    requires Inv(st)
    ensures Inv(Swap(st))
  {
    forall b | Stacked(st.cache, b) ensures Owned(Swap(st), b) {
      var p :| Owns(st.newb, p, b) || Owns(st.oldb, p, b);
    }
  }

  /** Committing keeps the partition when every primary being committed is in the set that is undone. */
  lemma BindCommitKeepsInv(st: State, undo: set<Id>)
    requires Inv(st) && st.newb.Keys <= undo
    ensures Inv(BindCommit(st, undo))
  {
    UnbindOldKeepsInv(st, undo);
    var mid := UnbindOld(st, undo);
    var st' := BindCommit(st, undo);
    assert forall p, b :: Owns(st'.oldb, p, b) <==> Owns(mid.oldb, p, b) || Owns(st.newb, p, b);
    assert forall p, b :: !Owns(st'.newb, p, b);
    forall b | Stacked(st'.cache, b) ensures Owned(st', b) {
      var p :| Owns(mid.newb, p, b) || Owns(mid.oldb, p, b);
      assert Owns(st'.oldb, p, b);
    }
  }

  /** With a commit set concealed, every symbol shows what it shows once the set is removed. */
  lemma ConcealIsCommit(st: State, undo: set<Id>)
    requires st.hidden == {}
    ensures ViewOf(BindCommit(st, undo)) == ViewOf(Conceal(st, undo))
    ensures BindCommit(st, undo).hidden == {}
  {
    var ids := ChainIds(st.oldb, undo);
    forall s | s in st.cache ensures Shown(Without(st.cache[s], ids), {}) == Shown(st.cache[s], ids) {
      HideIsRemove(st.cache[s], ids, {});
      assert {} + ids == ids;
    }
    assert st.hidden + ids == ids;
  }

  /** The invariant is about stacks and chains only. */
  lemma InvFrame(a: State, b: State)
    requires Inv(a) && b.cache == a.cache && b.newb == a.newb && b.oldb == a.oldb && a.nextId <= b.nextId
    ensures Inv(b)
  {
    hide Family, Distinct;
    forall c | Stacked(b.cache, c) ensures Owned(b, c) {
      var p :| Owns(a.newb, p, c) || Owns(a.oldb, p, c);
      assert Owns(b.newb, p, c) || Owns(b.oldb, p, c);
    }
  }
}
