/** The parser as the compiler runs it (contrib/cml2/cmlcompile.py): methods that consume a push-back token stream. */
module Parser {
  import opened Syntax

  datatype Outcome = Success(tree: Tree) | Failure(why: string) {
    predicate IsFailure() { Failure? }
    function PropagateFailure(): Outcome
      requires Failure?
    {
      this
    }
    function Extract(): Tree
      requires Success?
    {
      tree
    }
  }

  class TokenStream {
    /** What is still to be read; the end of file is read again and again. */
    var tokens: seq<Token>

    constructor (tokens: seq<Token>)
      ensures this.tokens == tokens
    {
      this.tokens := tokens;
    }

    ghost predicate Valid()
      reads this
    {
      EndOfFile !in tokens
    }

    /** The stream was read as the specification says. */
    ghost predicate Did(spec: Parsed, r: Outcome)
      reads this
    {
      match spec
      case Ok(tree, rest) => r == Success(tree) && tokens == rest && Valid()
      case Bad(why) => r == Failure(why)
    }

    method LexToken() returns (t: Token)
      requires Valid()
      modifies this
      ensures t == First(old(tokens)) && tokens == Rest(old(tokens)) && Valid()
    {
      if tokens == [] { return EndOfFile; }
      t := tokens[0];
      tokens := tokens[1..];
    }

    method PushToken(t: Token)
      requires Valid()
      modifies this
      ensures t == EndOfFile ==> tokens == old(tokens)
      ensures t != EndOfFile ==> tokens == [t] + old(tokens)
      ensures Valid()
    {
      if t != EndOfFile {
        tokens := [t] + tokens;
      }
    }

    method ParseAtom() returns (r: Outcome)
      requires Valid()
      modifies this
      ensures Did(Syntax.ParseAtom(old(tokens)), r)
      decreases |tokens|, 0
    {
      var op := LexToken();
      if op.Atom? || op.Long? || op.Str? { return Success(Leaf(op)); }
      if op.Open? {
        var sub :- ParseExpr();
        var close := LexToken();
        return if close.Close? then Success(sub) else Failure("while expecting a close paren");
      }
      if op.Keyword? { return Failure("keyword while expecting atom"); }
      if op.Word? { return Success(Leaf(op)); }
      r := Success(Missing);
    }

    method ParseTerm() returns (r: Outcome)
      requires Valid()
      modifies this
      ensures Did(Syntax.ParseTerm(old(tokens)), r)
      decreases |tokens|, 1
    {
      var left :- ParseAtom();
      ghost var before := tokens;
      var op := LexToken();
      if !Looks(op, 1) {
        PushToken(op);
        assert tokens == before;
        return Success(left);
      }
      var right :- ParseTerm();
      r := Success(Binary(op.op, left, right));
    }

    method ParseRelational() returns (r: Outcome)
      requires Valid()
      modifies this
      ensures Did(Syntax.ParseRelational(old(tokens)), r)
      decreases |tokens|, 2
    {
      var left :- ParseTerm();
      ghost var before := tokens;
      var op := LexToken();
      if !Looks(op, 2) {
        PushToken(op);
        assert tokens == before;
        return Success(left);
      }
      var right :- ParseTerm();
      r := Success(Binary(op.op, left, right));
    }

    method ParseAssertion() returns (r: Outcome)
      requires Valid()
      modifies this
      ensures Did(Syntax.ParseAssertion(old(tokens)), r)
      decreases |tokens|, 3
    {
      ghost var before := tokens;
      var negate := LexToken();
      if negate.NotToken? {
        var arg :- ParseRelational();
        return Success(Negation(arg));
      }
      PushToken(negate);
      assert tokens == before;
      r := ParseRelational();
    }

    method ParseConjunct() returns (r: Outcome)
      requires Valid()
      modifies this
      ensures Did(Syntax.ParseConjunct(old(tokens)), r)
      decreases |tokens|, 4
    {
      var left :- ParseAssertion();
      ghost var before := tokens;
      var op := LexToken();
      if !Looks(op, 4) {
        PushToken(op);
        assert tokens == before;
        return Success(left);
      }
      var right :- ParseConjunct();
      r := Success(Binary(op.op, left, right));
    }

    method ParseDisjunct() returns (r: Outcome)
      requires Valid()
      modifies this
      ensures Did(Syntax.ParseDisjunct(old(tokens)), r)
      decreases |tokens|, 5
    {
      var left :- ParseConjunct();
      ghost var before := tokens;
      var op := LexToken();
      if !Looks(op, 5) {
        PushToken(op);
        assert tokens == before;
        return Success(left);
      }
      var right :- ParseDisjunct();
      r := Success(Binary(op.op, left, right));
    }

    method ParseFactor() returns (r: Outcome)
      requires Valid()
      modifies this
      ensures Did(Syntax.ParseFactor(old(tokens)), r)
      decreases |tokens|, 6
    {
      var left :- ParseDisjunct();
      ghost var before := tokens;
      var op := LexToken();
      if !Looks(op, 6) {
        PushToken(op);
        assert tokens == before;
        return Success(left);
      }
      var right :- ParseDisjunct();
      r := Success(Binary(op.op, left, right));
    }

    method ParseSummand() returns (r: Outcome)
      requires Valid()
      modifies this
      ensures Did(Syntax.ParseSummand(old(tokens)), r)
      decreases |tokens|, 7
    {
      var left :- ParseFactor();
      ghost var before := tokens;
      var op := LexToken();
      if !Looks(op, 7) {
        PushToken(op);
        assert tokens == before;
        return Success(left);
      }
      var right :- ParseExpr();
      r := Success(Binary(op.op, left, right));
    }

    method ParseTernary() returns (r: Outcome)
      requires Valid()
      modifies this
      ensures Did(Syntax.ParseTernary(old(tokens)), r)
      decreases |tokens|, 8
    {
      var guard :- ParseSummand();
      ghost var before := tokens;
      var op := LexToken();
      if !op.Question? {
        PushToken(op);
        assert tokens == before;
        return Success(guard);
      }
      var yes :- ParseSummand();
      op := LexToken();
      if !op.Colon? { return Failure("while expecting : in ternary"); }
      var no :- ParseSummand();
      r := Success(Choice(guard, yes, no));
    }

    method ParseExpr() returns (r: Outcome)
      requires Valid()
      modifies this
      ensures Did(Syntax.ParseExpr(old(tokens)), r)
      decreases |tokens|, 9
    {
      var left :- ParseTernary();
      ghost var before := tokens;
      var op := LexToken();
      if !Looks(op, 9) {
        PushToken(op);
        assert tokens == before;
        return Success(left);
      }
      var right :- ParseExpr();
      r := Success(Binary(op.op, left, right));
    }
  }
}
