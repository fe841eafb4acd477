/** The compiler's loop that gives derived symbols their types (contrib/cml2/cmlcompile.py, compile). */
module TypeDeduction {
  import opened Options
  import opened Arithmetic

  datatype Type = Bool | Trit | Decimal | Hexadecimal | Str | Menu | Choices | Message

  /** A resolved expression, as far as deduction looks at it. */
  datatype Value =
    | TritValue(isM: bool)
    | Number
    | LongNumber                    // a hexadecimal constant
    | Text
    | Symbol(id: nat)
    | Logical                       // and, or, implies and the comparisons
    | MinMax                        // | & $
    | Arithmetic                    // * + -
    | Ternary(yes: Value)
    | Negated

  type Types = map<nat, Type>

  /** The type one look at a derivation yields, given the types known so far. */
  function Deduce(default: Value, types: Types): Option<Type> {
    match default
    case TritValue(isM) => Some(if isM then Trit else Bool)
    case Logical => Some(Bool)
    case MinMax => Some(Trit)
    case Arithmetic => Some(Decimal)
    case Ternary(Symbol(s)) => TypeOf(s, types)
    case Ternary(TritValue(_)) => Some(Trit)
    case Ternary(Number) => Some(Decimal)
    case Ternary(LongNumber) => Some(Decimal)
    case Ternary(Text) => Some(Str)
    case Ternary(_) => None
    case Negated => None
    case Number => Some(Decimal)
    case LongNumber => None
    case Text => Some(Str)
    case Symbol(s) => TypeOf(s, types)
  }

  function TypeOf(s: nat, types: Types): Option<Type> { if s in types then Some(types[s]) else None }

  ghost predicate Extends(less: Types, more: Types) { forall s | s in less :: s in more && more[s] == less[s] }

  /** Nothing more can be deduced, and nothing was deduced without reason. */
  ghost predicate Settled(defs: map<nat, Value>, start: Types, types: Types) {
    && Extends(start, types)
    && (forall s | s in defs && s !in start :: TypeOf(s, types) == Deduce(defs[s], types))
    && (forall s | s in types :: s in start || s in defs)
  }

  /** The least assignment that deduction settles at. */
  ghost predicate Least(defs: map<nat, Value>, start: Types, types: Types) {
    Settled(defs, start, types) && forall other | Settled(defs, start, other) :: Extends(types, other)
  }

  lemma DeduceMonotone(default: Value, less: Types, more: Types)
    requires Extends(less, more) && Deduce(default, less).Some?
    ensures Deduce(default, more) == Deduce(default, less)
  {
  }

  /** Two runs of the loop, whatever the order in which each goes through the dictionary, end with the same types. */
  lemma LeastIsUnique(defs: map<nat, Value>, start: Types, a: Types, b: Types)
    requires Least(defs, start, a) && Least(defs, start, b)
    ensures a == b
  {
    assert Extends(a, b) && Extends(b, a);
    assert a.Keys == b.Keys;
  }

  /** Deduced so far: nothing a settled assignment would not have, and each deduced type still can be deduced. */
  ghost predicate Partial(defs: map<nat, Value>, start: Types, types: Types) {
    && Extends(start, types)
    && (forall s | s in types :: s in start || s in defs)
    && (forall s | s in types && s !in start :: Deduce(defs[s], types) == Some(types[s]))
    && (forall other | Settled(defs, start, other) :: Extends(types, other))
  }

  lemma PartialStep(defs: map<nat, Value>, start: Types, types: Types, s: nat)
    requires Partial(defs, start, types) && s in defs && s !in types && Deduce(defs[s], types).Some?
    ensures Partial(defs, start, types[s := Deduce(defs[s], types).value])
  {
    var more := types[s := Deduce(defs[s], types).value];
    forall t | t in more && t !in start ensures Deduce(defs[t], more) == Some(more[t]) {
      DeduceMonotone(defs[t], types, more);
    }
    forall other | Settled(defs, start, other) ensures Extends(more, other) {
      DeduceMonotone(defs[s], types, other);
      assert TypeOf(s, other) == Deduce(defs[s], other);
    }
  }

  function Untyped(defs: map<nat, Value>, types: Types): set<nat> { defs.Keys - types.Keys }

  /** One pass over the dictionary; a type deduced early in the pass can serve later in it. */
  method Pass(dictionary: seq<nat>, defs: map<nat, Value>, ghost start: Types, before: Types)
    returns (types: Types, deduced: bool)
    requires Partial(defs, start, before) && forall s | s in defs :: s in dictionary
    ensures Partial(defs, start, types) && Extends(before, types)
    ensures deduced ==> Untyped(defs, types) < Untyped(defs, before)
    ensures !deduced ==> types == before && forall s | s in Untyped(defs, types) :: Deduce(defs[s], types).None?
  {
    types, deduced := before, false;
    for i := 0 to |dictionary|
      invariant Partial(defs, start, types) && Extends(before, types)
      invariant deduced ==> Untyped(defs, types) < Untyped(defs, before)
      invariant !deduced ==> types == before
      invariant !deduced ==>
                forall s | s in dictionary[..i] && s in Untyped(defs, types) :: Deduce(defs[s], types).None?
    {
      var s := dictionary[i];
      if s in defs && s !in types {
        var derived := Deduce(defs[s], types);
        if derived.Some? {
          PartialStep(defs, start, types, s);
          types := types[s := derived.value];
          deduced := true;
        }
      }
    }
    assert dictionary[..|dictionary|] == dictionary;
  }

  lemma {:induction false} SmallerSet(a: set<nat>, b: set<nat>)
    requires a < b
    ensures |a| < |b|
  {
    var x :| x in b && x !in a;
    SubsetSize(a, b - {x});
  }

  /**
   * Spins until a pass deduces nothing. It makes at most one pass more than there are derived symbols to type, and
   * ends with the least settled assignment, which does not depend on the dictionary's order.
   */
  method DeduceTypes(dictionary: seq<nat>, defs: map<nat, Value>, start: Types) returns (types: Types, passes: nat)
    requires forall s | s in defs :: s in dictionary
    ensures Least(defs, start, types)
    ensures Explained(defs, start, types)
    ensures 1 <= passes <= |Untyped(defs, start)| + 1
  {
    hide Explained;
    types, passes := start, 0;
    var deduced := true;
    assert Partial(defs, start, types);
    while deduced
      invariant Partial(defs, start, types)
      invariant passes + |Untyped(defs, types)| <= |Untyped(defs, start)| + (if deduced then 0 else 1)
      invariant passes == 0 ==> deduced
      invariant !deduced ==> forall s | s in Untyped(defs, types) :: Deduce(defs[s], types).None?
      decreases |Untyped(defs, types)|, deduced
    {
      ghost var before := types;
      types, deduced := Pass(dictionary, defs, start, types);
      passes := passes + 1;
      if deduced { SmallerSet(Untyped(defs, types), Untyped(defs, before)); }
    }
    Finished(defs, start, types);
  }

  lemma Finished(defs: map<nat, Value>, start: Types, types: Types)
    requires Partial(defs, start, types) && forall s | s in Untyped(defs, types) :: Deduce(defs[s], types).None?
    ensures Least(defs, start, types) && Explained(defs, start, types)
  {
    hide HasTrace;
    forall s | s in defs && s !in start ensures TypeOf(s, types) == Deduce(defs[s], types) {
      if s !in types { assert s in Untyped(defs, types); }
    }
    forall s, t ensures TypeOf(s, types) == Some(t) <==> HasTrace(defs, start, s, t) {
      LeastExact(defs, start, types, s, t);
    }
  }

  // ----- which types these are

  /** The type that a form of derivation has by itself. */
  predicate FormGives(default: Value, t: Type) {
    match default
    case TritValue(isM) => t == if isM then Trit else Bool
    case Logical => t == Bool
    case MinMax => t == Trit
    case Arithmetic => t == Decimal
    case Number => t == Decimal
    case Text => t == Str
    case Ternary(yes) =>
      || (yes.TritValue? && t == Trit)
      || ((yes.Number? || yes.LongNumber?) && t == Decimal)
      || (yes.Text? && t == Str)
    case Symbol(_) => false
    case LongNumber => false
    case Negated => false
  }

  /** The symbol whose type a derivation takes over. */
  function TakesOver(default: Value): Option<nat> {
    if default.Symbol? then Some(default.id)
    else if default.Ternary? && default.yes.Symbol? then Some(default.yes.id)
    else None
  }

  /** From derivation to derivation to a symbol declared with the type t, or to a form that gives it. */
  ghost predicate Traced(defs: map<nat, Value>, start: Types, path: seq<nat>, t: Type)
    decreases |path|
  {
    && path != []
    && if path[0] in start then |path| == 1 && start[path[0]] == t
       else
         && path[0] in defs
         && if |path| == 1 then FormGives(defs[path[0]], t)
            else TakesOver(defs[path[0]]) == Some(path[1]) && Traced(defs, start, path[1..], t)
  }

  ghost predicate HasTrace(defs: map<nat, Value>, start: Types, s: nat, t: Type) {
    exists path :: Traced(defs, start, path, t) && path[0] == s
  }

  /** Each symbol has the type its derivation leads to, if it leads to one. */
  ghost predicate Explained(defs: map<nat, Value>, start: Types, types: Types) {
    forall s, t :: TypeOf(s, types) == Some(t) <==> HasTrace(defs, start, s, t)
  }

  lemma DeduceForms(default: Value, types: Types, t: Type)
    ensures Deduce(default, types) == Some(t) <==>
            FormGives(default, t) || (TakesOver(default).Some? && TypeOf(TakesOver(default).value, types) == Some(t))
  {
  }

  lemma {:induction false} TraceHolds(defs: map<nat, Value>, start: Types, types: Types, path: seq<nat>, t: Type)
    requires Settled(defs, start, types) && Traced(defs, start, path, t)
    ensures TypeOf(path[0], types) == Some(t)
    decreases |path|
  {
    if path[0] !in start {
      if |path| > 1 { TraceHolds(defs, start, types, path[1..], t); }
      DeduceForms(defs[path[0]], types, t);
    }
  }

  /** A symbol ends up with a type exactly if its derivation leads to it: along others' types, or by its form. */
  lemma LeastExact(defs: map<nat, Value>, start: Types, types: Types, s: nat, t: Type)
    requires Least(defs, start, types)
    ensures TypeOf(s, types) == Some(t) <==> HasTrace(defs, start, s, t)
  {
    hide Deduce;
    forall path | Traced(defs, start, path, t) ensures TypeOf(path[0], types) == Some(t) {
      TraceHolds(defs, start, types, path, t);
    }
    var traced := map u | u in types && HasTrace(defs, start, u, types[u]) :: types[u];
    TracedSettled(defs, start, types, traced);
    assert Extends(types, traced);
  }

  lemma TracedSettled(defs: map<nat, Value>, start: Types, types: Types, traced: Types)
    requires Settled(defs, start, types)
    requires traced == map u | u in types && HasTrace(defs, start, u, types[u]) :: types[u]
    ensures Settled(defs, start, traced)
  {
    hide Deduce, FormGives, Traced, TakesOver;
    forall s | s in start ensures s in traced && traced[s] == start[s] {
      assert Traced(defs, start, [s], start[s]) by { TracedStart(defs, start, s); }
      assert [s][0] == s;
    }
    forall s | s in defs && s !in start ensures TypeOf(s, traced) == Deduce(defs[s], traced) {
      forall t ensures TypeOf(s, traced) == Some(t) <==> Deduce(defs[s], traced) == Some(t) {
        DeduceForms(defs[s], types, t);
        DeduceForms(defs[s], traced, t);
        TraceStep(defs, start, s, t);
        if TakesOver(defs[s]).Some? && HasTrace(defs, start, TakesOver(defs[s]).value, t) {
          TraceTyped(defs, start, types, TakesOver(defs[s]).value, t);
        }
      }
      if TypeOf(s, traced).None? { assert Deduce(defs[s], traced).None?; }
    }
  }

  lemma TracedStart(defs: map<nat, Value>, start: Types, s: nat)
    requires s in start
    ensures Traced(defs, start, [s], start[s])
  {
  }

  lemma TraceTyped(defs: map<nat, Value>, start: Types, types: Types, s: nat, t: Type)
    requires Settled(defs, start, types) && HasTrace(defs, start, s, t)
    ensures TypeOf(s, types) == Some(t)
  {
    var path :| Traced(defs, start, path, t) && path[0] == s;
    TraceHolds(defs, start, types, path, t);
  }

  /** A derived symbol's traces are its form's, and those of the symbol whose type it takes over. */
  lemma TraceStep(defs: map<nat, Value>, start: Types, s: nat, t: Type)
    requires s in defs && s !in start
    ensures HasTrace(defs, start, s, t) <==>
            FormGives(defs[s], t) || (TakesOver(defs[s]).Some? && HasTrace(defs, start, TakesOver(defs[s]).value, t))
  {
    if FormGives(defs[s], t) { assert Traced(defs, start, [s], t) && [s][0] == s; }
    if TakesOver(defs[s]).Some? && HasTrace(defs, start, TakesOver(defs[s]).value, t) {
      var path :| Traced(defs, start, path, t) && path[0] == TakesOver(defs[s]).value;
      assert ([s] + path)[1..] == path;
      assert Traced(defs, start, [s] + path, t) && ([s] + path)[0] == s;
    }
  }
}
