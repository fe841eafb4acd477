/**
 * The precedence of the rule language's operators (contrib/cml2/cmlcompile.py, parse_term to parse_expr_inner): an
 * expression printed with as few parentheses as the order of the operators allows is read back as it is.
 */
module Precedence {
  import opened Syntax

  /** The operators from the tightest to the loosest; `not` is at 3 and `? :` at 8. */
  function Rank(op: Infix): nat {
    if op in {Bar, Amp, Dollar} then 1
    else if op in {Eq, Ne, Lt, Gt, Ge, Le} then 2
    else if op == And then 4
    else if op == Or then 5
    else if op == Implies then 6
    else if op == Star then 7
    else 9
  }

  /** Chains of these are not read at all; all the others associate to the right. */
  predicate Single(op: Infix) { op in {Eq, Ne, Lt, Gt, Ge, Le, Implies} }

  /** The first token of `rest` is no operator of rank up to `limit`. */
  predicate Stops(limit: nat, rest: seq<Token>) {
    && (First(rest).Operator? ==> limit < Rank(First(rest).op))
    && (First(rest).Question? ==> limit < 8)
  }

  /**
   * Whether e needs no parentheses as an operand of rank up to `level`, when what follows it is known to be no operator
   * of rank up to `limit`. What stands behind a `*` reaches as far as it can.
   */
  predicate Bare(level: nat, limit: nat, e: Tree) {
    match e
    case Leaf(_) => true
    case Missing => true
    case Negation(_) => 3 <= level
    case Choice(_, _, _) => 8 <= level
    case Binary(op, _, _) => Rank(op) <= level && (op == Star ==> limit == 9)
  }

  function Sparse(level: nat, limit: nat, e: Tree): seq<Token>
    decreases e, 1
  {
    if Bare(level, limit, e) then Text(limit, e) else [Open] + Text(9, e) + [Close]
  }

  function Text(limit: nat, e: Tree): seq<Token>
    decreases e, 0
  {
    match e
    case Leaf(t) => [t]
    case Missing => [Other("")]
    case Negation(a) => [NotToken] + Sparse(2, limit, a)
    case Choice(g, a, b) => Sparse(7, 7, g) + [Question] + Sparse(7, 9, a) + [Colon] + Sparse(7, limit, b)
    case Binary(op, a, b) =>
      Sparse(Rank(op) - 1, Rank(op) - 1, a) + [Operator(op)] +
      Sparse(if op == Star then 9 else if Single(op) then Rank(op) - 1 else Rank(op), limit, b)
  }

  lemma RankIsLevel(op: Infix)
    ensures Rank(op) == LevelOf(op) && LeftLevel(op) == Rank(op) - 1
    ensures RightLevel(op) == if op == Star then 9 else if Single(op) then Rank(op) - 1 else Rank(op)
  {
  }

  lemma StopsIsQuiet(lo: nat, limit: nat, rest: seq<Token>)
    requires Stops(limit, rest)
    ensures Quiet(lo, limit, rest)
  {
    if First(rest).Operator? { RankIsLevel(First(rest).op); }
  }

  /** The text of an operand that binds tighter than `not` does not begin with one. */
  lemma {:induction false} StartsWithoutNot(level: nat, limit: nat, e: Tree, rest: seq<Token>)
    requires ProperLeaves(e) && level < 3
    ensures Sparse(level, limit, e) != [] && !First(Sparse(level, limit, e) + rest).NotToken?
  {
    if Bare(level, limit, e) && e.Binary? {
      var op, left := e.op, Sparse(Rank(e.op) - 1, Rank(e.op) - 1, e.left);
      var right := Sparse(if op == Star then 9 else if Single(op) then Rank(op) - 1 else Rank(op), limit, e.right);
      StartsWithoutNot(Rank(op) - 1, Rank(op) - 1, e.left, right);
      assert Sparse(level, limit, e) == left + [Operator(op)] + right;
      assert left[0] == First(left + right) == First(Sparse(level, limit, e) + rest);
    }
  }

  /** An expression printed with as few parentheses as its place allows is read back, up to a token that stops it. */
  lemma {:induction false} SparseReads(level: nat, limit: nat, e: Tree, rest: seq<Token>)
    requires ProperLeaves(e) && level <= limit <= 9 && Stops(limit, rest)
    ensures ParseAt(level, Sparse(level, limit, e) + rest) == Ok(e, rest)
    decreases e, 1
  {
    hide ParseAtom, ParseTerm, ParseRelational, ParseAssertion, ParseConjunct, ParseDisjunct, ParseFactor, ParseSummand,
         ParseTernary, ParseExpr, Text, Quiet, Stops;
    var ts := Sparse(level, limit, e) + rest;
    if Bare(level, limit, e) {
      TextReads(level, limit, e, rest);
    } else {
      var inner := [Close] + rest;
      assert Stops(9, inner) by { CloseStops(rest); }
      TextReads(9, 9, e, inner);
      assert ts == [Open] + (Text(9, e) + inner);
      Parenthesised(ts, Text(9, e) + inner, e, rest);
      StopsIsQuiet(0, limit, rest);
      QuietLess(0, 0, limit, level, rest);
      Lift(0, level, ts, e, rest);
    }
  }

  lemma CloseStops(rest: seq<Token>)
    ensures Stops(9, [Close] + rest) && Stops(9, [Colon] + rest)
  {
  }

  lemma QuietLess(lo: nat, lo': nat, hi: nat, hi': nat, rest: seq<Token>)
    requires Quiet(lo, hi, rest) && lo <= lo' && hi' <= hi
    ensures Quiet(lo', hi', rest)
  {
  }

  lemma Parenthesised(ts: seq<Token>, inner: seq<Token>, e: Tree, rest: seq<Token>)
    requires ts == [Open] + inner && ParseExpr(inner) == Ok(e, [Close] + rest)
    ensures ParseAt(0, ts) == Ok(e, rest) && !First(ts).NotToken?
  {
    assert Rest(ts) == inner && Rest([Close] + rest) == rest;
  }

  lemma LeafReads(e: Tree, rest: seq<Token>)
    requires ProperLeaves(e) && (e.Leaf? || e.Missing?)
    ensures ParseAt(0, Text(9, e) + rest) == Ok(e, rest) && !First(Text(9, e) + rest).NotToken?
  {
    assert Rest(Text(9, e) + rest) == rest;
  }

  lemma NegationReads(ts: seq<Token>, inner: seq<Token>, a: Tree, rest: seq<Token>)
    requires ts == [NotToken] + inner && ParseAt(2, inner) == Ok(a, rest)
    ensures ParseAt(3, ts) == Ok(Negation(a), rest)
  {
    assert Rest(ts) == inner;
  }

  /** The same without parentheses, where none are needed. */
  lemma {:induction false} TextReads(level: nat, limit: nat, e: Tree, rest: seq<Token>)
    requires ProperLeaves(e) && level <= limit <= 9 && Stops(limit, rest) && Bare(level, limit, e)
    ensures ParseAt(level, Text(limit, e) + rest) == Ok(e, rest)
    decreases e, 0
  {
    hide ParseAtom, ParseTerm, ParseRelational, ParseAssertion, ParseConjunct, ParseDisjunct, ParseFactor, ParseSummand,
         ParseTernary, ParseExpr, Sparse, Quiet, Stops, LevelOf, LeftLevel, RightLevel, ParseAt;
    var ts := Text(limit, e) + rest;
    StopsIsQuiet(0, limit, rest);
    match e
    case Leaf(_) =>
      LeafReads(e, rest);
      QuietLess(0, 0, limit, level, rest);
      Lift(0, level, ts, e, rest);
    case Missing =>
      LeafReads(e, rest);
      QuietLess(0, 0, limit, level, rest);
      Lift(0, level, ts, e, rest);
    case Negation(a) =>
      SparseReads(2, limit, a, rest);
      assert ts == [NotToken] + (Sparse(2, limit, a) + rest);
      NegationReads(ts, Sparse(2, limit, a) + rest, a, rest);
      QuietLess(0, 3, limit, level, rest);
      Lift(3, level, ts, e, rest);
    case Choice(g, a, b) => ChoiceReads(level, limit, g, a, b, rest);
    case Binary(op, a, b) => BinaryReads(level, limit, op, a, b, rest);
  }

  lemma ChoiceText(limit: nat, g: Tree, a: Tree, b: Tree)
    ensures Text(limit, Choice(g, a, b)) ==
            Sparse(7, 7, g) + [Question] + Sparse(7, 9, a) + [Colon] + Sparse(7, limit, b)
  {
    hide Sparse;
  }

  lemma {:induction false} ChoiceReads(level: nat, limit: nat, g: Tree, a: Tree, b: Tree, rest: seq<Token>)
    requires ProperLeaves(Choice(g, a, b)) && 8 <= level <= limit <= 9 && Stops(limit, rest)
    ensures ParseAt(level, Text(limit, Choice(g, a, b)) + rest) == Ok(Choice(g, a, b), rest)
    decreases Choice(g, a, b), 0, 0
  {
    hide ParseAtom, ParseTerm, ParseRelational, ParseAssertion, ParseConjunct, ParseDisjunct, ParseFactor, ParseSummand,
         ParseTernary, ParseExpr, Sparse, Quiet, Stops, Text, LevelOf, Rank, Bare;
    var ts := Text(limit, Choice(g, a, b)) + rest;
    var third := Sparse(7, limit, b) + rest;
    var middle := [Colon] + third;
    var next := [Question] + (Sparse(7, 9, a) + middle);
    ChoiceText(limit, g, a, b);
    assert ts == Sparse(7, 7, g) + next;
    assert next[1..] == Sparse(7, 9, a) + middle && middle[1..] == third;
    assert Stops(7, next) by { QuestionStops(Sparse(7, 9, a) + middle); }
    CloseStops(third);
    SparseReads(7, 7, g, next);
    SparseReads(7, 9, a, middle);
    SparseReads(7, limit, b, rest);
    CombineChoice(ts, g, next, a, middle, b, rest);
    StopsIsQuiet(8, limit, rest);
    QuietLess(8, 8, limit, level, rest);
    Lift(8, level, ts, Choice(g, a, b), rest);
  }

  lemma QuestionStops(rest: seq<Token>)
    ensures Stops(7, [Question] + rest)
  {
  }

  lemma OperatorStops(op: Infix, rest: seq<Token>)
    ensures Stops(Rank(op) - 1, [Operator(op)] + rest)
  {
  }

  lemma {:induction false} BinaryReads(level: nat, limit: nat, op: Infix, a: Tree, b: Tree, rest: seq<Token>)
    requires ProperLeaves(Binary(op, a, b)) && Rank(op) <= level <= limit <= 9 && Stops(limit, rest)
    requires op == Star ==> limit == 9
    ensures ParseAt(level, Text(limit, Binary(op, a, b)) + rest) == Ok(Binary(op, a, b), rest)
    decreases Binary(op, a, b), 0, 0
  {
    hide ParseAtom, ParseTerm, ParseRelational, ParseAssertion, ParseConjunct, ParseDisjunct, ParseFactor, ParseSummand,
         ParseTernary, ParseExpr, Sparse, Quiet, Stops, LevelOf, LeftLevel, RightLevel, ParseAt, Rank, Single;
    RankIsLevel(op);
    var ts, right := Text(limit, Binary(op, a, b)) + rest, RightLevel(op);
    RankBounds(op);
    var next := [Operator(op)] + (Sparse(right, limit, b) + rest);
    assert ts == Sparse(Rank(op) - 1, Rank(op) - 1, a) + next;
    assert next[1..] == Sparse(right, limit, b) + rest;
    OperatorStops(op, Sparse(right, limit, b) + rest);
    SparseReads(Rank(op) - 1, Rank(op) - 1, a, next);
    SparseReads(right, limit, b, rest);
    Combine(op, ts, a, next, b, rest);
    StopsIsQuiet(Rank(op), limit, rest);
    QuietLess(Rank(op), Rank(op), limit, level, rest);
    if Rank(op) < 3 { StartsWithoutNot(Rank(op) - 1, Rank(op) - 1, a, next); }
    Lift(Rank(op), level, ts, Binary(op, a, b), rest);
  }

  lemma RankBounds(op: Infix)
    ensures 1 <= Rank(op) <= 9 && RightLevel(op) <= 9 && (op != Star ==> RightLevel(op) <= Rank(op))
  {
  }

  // ----- chains of two operators

  /** Three leaves with two operators between them. */
  function Chain(a: Token, op: Infix, b: Token, op': Infix, c: Token): seq<Token> {
    [a, Operator(op), b, Operator(op'), c]
  }

  /** The looser of two operators is the outer one; of two that are equally loose, or after a `*`, it is the first. */
  lemma ChainReads(a: Token, op: Infix, b: Token, op': Infix, c: Token)
    requires IsLeaf(a) && IsLeaf(b) && IsLeaf(c)
    ensures var (x, y, z) := (Leaf(a), Leaf(b), Leaf(c));
            && (Rank(op) < Rank(op') && op != Star ==>
                  ParseExpr(Chain(a, op, b, op', c)) == Ok(Binary(op', Binary(op, x, y), z), []))
            && (Rank(op) > Rank(op') || op == Star || (Rank(op) == Rank(op') && !Single(op)) ==>
                  ParseExpr(Chain(a, op, b, op', c)) == Ok(Binary(op, x, Binary(op', y, z)), []))
            && (Rank(op) == Rank(op') && Single(op) ==>
                  ParseExpr(Chain(a, op, b, op', c)) == Ok(Binary(op, x, y), [Operator(op'), c]))
  {
    hide ParseExpr;
    var (x, y, z) := (Leaf(a), Leaf(b), Leaf(c));
    if Rank(op) < Rank(op') && op != Star {
      PairText(Rank(op') - 1, op, a, b);
      LeftNested(op, op', x, y, z);
      ChainText(Binary(op', Binary(op, x, y), z), Chain(a, op, b, op', c));
    } else if Rank(op) > Rank(op') || op == Star || !Single(op) {
      PairText(9, op', b, c);
      RightNested(op, op', x, y, z);
      ChainText(Binary(op, x, Binary(op', y, z)), Chain(a, op, b, op', c));
    } else {
      SingleReads(a, op, b, op', c);
    }
  }

  lemma PairText(limit: nat, op: Infix, a: Token, b: Token)
    requires IsLeaf(a) && IsLeaf(b)
    ensures Text(limit, Binary(op, Leaf(a), Leaf(b))) == [a, Operator(op), b]
    ensures ProperLeaves(Binary(op, Leaf(a), Leaf(b)))
  {
    assert forall level, limit, t | t == a || t == b :: Sparse(level, limit, Leaf(t)) == [t];
  }

  lemma LeftNested(op: Infix, op': Infix, x: Tree, y: Tree, z: Tree)
    requires Rank(op) < Rank(op') && op != Star && z.Leaf?
    ensures Sparse(9, 9, Binary(op', Binary(op, x, y), z)) ==
            Text(Rank(op') - 1, Binary(op, x, y)) + [Operator(op')] + [z.token]
  {
    RankIsLevel(op');
    RankBounds(op');
    var e, inner, right := Binary(op', Binary(op, x, y), z), Binary(op, x, y), RightLevel(op');
    assert Bare(Rank(op') - 1, Rank(op') - 1, inner) && Bare(9, 9, e);
    assert Sparse(9, 9, e) == Text(9, e);
    assert Sparse(Rank(op') - 1, Rank(op') - 1, inner) == Text(Rank(op') - 1, inner);
    assert Sparse(right, 9, z) == Text(9, z) == [z.token];
    assert Text(9, e) == Sparse(Rank(op') - 1, Rank(op') - 1, inner) + [Operator(op')] + Sparse(right, 9, z);
  }

  lemma RightNested(op: Infix, op': Infix, x: Tree, y: Tree, z: Tree)
    requires Rank(op) > Rank(op') || op == Star || (Rank(op) == Rank(op') && !Single(op))
    requires x.Leaf?
    ensures Sparse(9, 9, Binary(op, x, Binary(op', y, z))) == [x.token] + [Operator(op)] + Text(9, Binary(op', y, z))
  {
    RankIsLevel(op);
    RankBounds(op);
    var e, inner, right := Binary(op, x, Binary(op', y, z)), Binary(op', y, z), RightLevel(op);
    assert Bare(9, 9, e) && Bare(right, 9, inner);
    assert Sparse(9, 9, e) == Text(9, e);
    assert Sparse(right, 9, inner) == Text(9, inner);
    assert Sparse(Rank(op) - 1, Rank(op) - 1, x) == Text(Rank(op) - 1, x) == [x.token];
    assert Text(9, e) == Sparse(Rank(op) - 1, Rank(op) - 1, x) + [Operator(op)] + Sparse(right, 9, inner);
  }

  lemma ChainText(e: Tree, ts: seq<Token>)
    requires ProperLeaves(e) && Sparse(9, 9, e) == ts
    ensures ParseExpr(ts) == Ok(e, [])
  {
    hide Sparse, ParseExpr;
    SparseReads(9, 9, e, []);
    assert ts + [] == ts;
  }

  lemma SingleReads(a: Token, op: Infix, b: Token, op': Infix, c: Token)
    requires IsLeaf(a) && IsLeaf(b) && IsLeaf(c) && Rank(op) == Rank(op') && Single(op)
    ensures ParseExpr(Chain(a, op, b, op', c)) == Ok(Binary(op, Leaf(a), Leaf(b)), [Operator(op'), c])
  {
    hide ParseExpr, ParseAt;
    var rest := [Operator(op'), c];
    var e := Binary(op, Leaf(a), Leaf(b));
    var ts := Chain(a, op, b, op', c);
    SingleLeft(a, op, b, rest);
    assert ts == [a, Operator(op), b] + rest;
    RankIsLevel(op');
    Lift(Rank(op), 9, ts, e, rest);
    assert ParseAt(9, ts) == ParseExpr(ts) by { ParseAtNine(ts); }
  }

  lemma ParseAtNine(ts: seq<Token>)
    ensures ParseAt(9, ts) == ParseExpr(ts)
  {
  }

  lemma SingleLeft(a: Token, op: Infix, b: Token, rest: seq<Token>)
    requires IsLeaf(a) && IsLeaf(b) && Single(op) && Stops(Rank(op) - 1, rest)
    ensures ParseAt(Rank(op), [a, Operator(op), b] + rest) == Ok(Binary(op, Leaf(a), Leaf(b)), rest)
  {
    hide ParseExpr, ParseAt;
    RankIsLevel(op);
    var level, after := Rank(op) - 1, [b] + rest;
    var next := [Operator(op)] + after;
    assert [a, Operator(op), b] + rest == [a] + next;
    OperatorStops(op, after);
    SparseReads(level, level, Leaf(a), next);
    SparseReads(level, level, Leaf(b), rest);
    assert next[1..] == after;
    Combine(op, [a] + next, Leaf(a), next, Leaf(b), rest);
  }
}
