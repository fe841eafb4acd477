/**
 * The rule language's expressions: the compiler's recursive descent parser (contrib/cml2/cmlcompile.py) against the
 * fully parenthesising printer (contrib/cml2/cml.py, display_expression), on the lexer's tokens.
 */
module Syntax {
  import opened Options

  datatype Infix =
    | Bar | Amp | Dollar
    | Eq | Ne | Lt | Gt | Ge | Le
    | And | Or | Implies
    | Star | Plus | Minus

  /**
   * Atom: a trit or a decimal that fits a plain integer. Long: a hexadecimal or a larger decimal, which Python holds as
   * a long. Other: what no expression can contain.
   */
  datatype Token =
    | Atom(text: string) | Long(value: nat) | Str(text: string) | Word(text: string) | Keyword(text: string)
    | Operator(op: Infix) | Question | Colon | Open | Close | NotToken | Other(text: string) | EndOfFile

  /** Missing is the None that the parser returns for a token that starts no atom. */
  datatype Tree =
    | Leaf(token: Token)
    | Missing
    | Negation(arg: Tree)
    | Choice(guard: Tree, yes: Tree, no: Tree)
    | Binary(op: Infix, left: Tree, right: Tree)

  datatype Parsed = Ok(tree: Tree, rest: seq<Token>) | Bad(why: string) {
    predicate IsFailure() { Bad? }
    function PropagateFailure(): Parsed
      requires Bad?
    {
      this
    }
    function Extract(): (Tree, seq<Token>)
      requires Ok?
    {
      (tree, rest)
    }
  }

  predicate IsLeaf(t: Token) { t.Atom? || t.Long? || t.Str? || t.Word? }

  function First(ts: seq<Token>): Token { if ts == [] then EndOfFile else ts[0] }

  function Rest(ts: seq<Token>): seq<Token> { if ts == [] then [] else ts[1..] }

  /** The parsing function that looks for the operator: 1 parse_term up to 9 parse_expr_inner. */
  function LevelOf(op: Infix): nat {
    match op
    case Bar => 1 case Amp => 1 case Dollar => 1
    case Eq => 2 case Ne => 2 case Lt => 2 case Gt => 2 case Ge => 2 case Le => 2
    case And => 4
    case Or => 5
    case Implies => 6
    case Star => 7
    case Plus => 9 case Minus => 9
  }

  predicate Looks(t: Token, level: nat) { t.Operator? && LevelOf(t.op) == level }

  // ----- what every result looks like

  predicate ProperLeaves(e: Tree) {
    match e
    case Leaf(t) => IsLeaf(t)
    case Missing => true
    case Negation(a) => ProperLeaves(a)
    case Choice(g, a, b) => ProperLeaves(g) && ProperLeaves(a) && ProperLeaves(b)
    case Binary(_, a, b) => ProperLeaves(a) && ProperLeaves(b)
  }

  predicate Positive(e: Tree) {
    match e
    case Leaf(_) => true
    case Missing => true
    case Negation(_) => false
    case Choice(g, a, b) => Positive(g) && Positive(a) && Positive(b)
    case Binary(_, a, b) => Positive(a) && Positive(b)
  }

  /** A result uses up part of the tokens, has leaves that are leaves, and negations only if the lexer made `not`. */
  predicate Sane(ts: seq<Token>, r: Parsed) {
    r.Ok? ==>
      && |r.rest| <= |ts| && ProperLeaves(r.tree)
      && (NotToken !in ts ==> NotToken !in r.rest && Positive(r.tree))
      && (EndOfFile !in ts ==> EndOfFile !in r.rest)
  }

  // ----- the parser

  function ParseAtom(ts: seq<Token>): (r: Parsed)
    ensures Sane(ts, r)
    decreases |ts|, 0
  {
    var op := First(ts);
    if IsLeaf(op) then Ok(Leaf(op), Rest(ts))
    else if op.Open? then
      var (sub, rest) :- ParseExpr(Rest(ts));
      if First(rest).Close? then Ok(sub, Rest(rest)) else Bad("while expecting a close paren")
    else if op.Keyword? then Bad("keyword while expecting atom")
    else Ok(Missing, Rest(ts))
  }

  function ParseTerm(ts: seq<Token>): (r: Parsed)
    ensures Sane(ts, r)
    decreases |ts|, 1
  {
    var (left, rest) :- ParseAtom(ts);
    if !Looks(First(rest), 1) then Ok(left, rest)
    else
      var (right, after) :- ParseTerm(Rest(rest));
      Ok(Binary(First(rest).op, left, right), after)
  }

  function ParseRelational(ts: seq<Token>): (r: Parsed)
    ensures Sane(ts, r)
    decreases |ts|, 2
  {
    var (left, rest) :- ParseTerm(ts);
    if !Looks(First(rest), 2) then Ok(left, rest)
    else
      var (right, after) :- ParseTerm(Rest(rest));
      Ok(Binary(First(rest).op, left, right), after)
  }

  function ParseAssertion(ts: seq<Token>): (r: Parsed)
    ensures Sane(ts, r)
    decreases |ts|, 3
  {
    if First(ts).NotToken? then
      var (arg, rest) :- ParseRelational(Rest(ts));
      Ok(Negation(arg), rest)
    else ParseRelational(ts)
  }

  function ParseConjunct(ts: seq<Token>): (r: Parsed)
    ensures Sane(ts, r)
    decreases |ts|, 4
  {
    var (left, rest) :- ParseAssertion(ts);
    if !Looks(First(rest), 4) then Ok(left, rest)
    else
      var (right, after) :- ParseConjunct(Rest(rest));
      Ok(Binary(First(rest).op, left, right), after)
  }

  function ParseDisjunct(ts: seq<Token>): (r: Parsed)
    ensures Sane(ts, r)
    decreases |ts|, 5
  {
    var (left, rest) :- ParseConjunct(ts);
    if !Looks(First(rest), 5) then Ok(left, rest)
    else
      var (right, after) :- ParseDisjunct(Rest(rest));
      Ok(Binary(First(rest).op, left, right), after)
  }

  function ParseFactor(ts: seq<Token>): (r: Parsed)
    ensures Sane(ts, r)
    decreases |ts|, 6
  {
    var (left, rest) :- ParseDisjunct(ts);
    if !Looks(First(rest), 6) then Ok(left, rest)
    else
      var (right, after) :- ParseDisjunct(Rest(rest));
      Ok(Binary(First(rest).op, left, right), after)
  }

  function ParseSummand(ts: seq<Token>): (r: Parsed)
    ensures Sane(ts, r)
    decreases |ts|, 7
  {
    var (left, rest) :- ParseFactor(ts);
    if !Looks(First(rest), 7) then Ok(left, rest)
    else
      var (right, after) :- ParseExpr(Rest(rest));
      Ok(Binary(First(rest).op, left, right), after)
  }

  function ParseTernary(ts: seq<Token>): (r: Parsed)
    ensures Sane(ts, r)
    decreases |ts|, 8
  {
    var (guard, rest) :- ParseSummand(ts);
    if !First(rest).Question? then Ok(guard, rest)
    else
      var (yes, middle) :- ParseSummand(Rest(rest));
      if !First(middle).Colon? then Bad("while expecting : in ternary")
      else
        var (no, after) :- ParseSummand(Rest(middle));
        Ok(Choice(guard, yes, no), after)
  }

  function ParseExpr(ts: seq<Token>): (r: Parsed)
    ensures Sane(ts, r)
    decreases |ts|, 9
  {
    var (left, rest) :- ParseTernary(ts);
    if !Looks(First(rest), 9) then Ok(left, rest)
    else
      var (right, after) :- ParseExpr(Rest(rest));
      Ok(Binary(First(rest).op, left, right), after)
  }

  // ----- the printer

  /** Characters that Python's repr shows as they are. */
  predicate PlainChar(c: char) { ' ' <= c <= '~' && c != '\\' }

  predicate PlainText(text: string) {
    (forall i | 0 <= i < |text| :: PlainChar(text[i])) && !('\'' in text && '"' in text)
  }

  function HexDigit(d: nat): char
    requires d < 16
  {
    if d < 10 then '0' + d as char else 'a' + (d - 10) as char
  }

  /** A character as repr shows it; `both` if the text contains both kinds of quotes. */
  function EscapedChar(c: char, both: bool): string {
    match c
    case '\\' => "\\\\"
    case '\n' => "\\n"
    case '\t' => "\\t"
    case '\r' => "\\r"
    case _ =>
      if c == '\'' && both then "\\'"
      else if PlainChar(c) then [c]
      else "\\x" + [HexDigit(c as nat / 16 % 16), HexDigit(c as nat % 16)]
  }

  function EscapedChars(text: string, both: bool): string {
    if text == "" then "" else EscapedChar(text[0], both) + EscapedChars(text[1..], both)
  }

  /** repr of a text, without its quotes. */
  function Escaped(text: string): string { EscapedChars(text, '\'' in text && '"' in text) }

  lemma {:induction false} EscapedLength(text: string, both: bool)
    ensures |EscapedChars(text, both)| >= |text|
    ensures EscapedChars(text, both) == text <==>
            forall i | 0 <= i < |text| :: PlainChar(text[i]) && !(both && text[i] == '\'')
    ensures EscapedChars(text, both) != text ==> |EscapedChars(text, both)| > |text|
  {
    if text == "" {
    } else {
      EscapedLength(text[1..], both);
      assert text == [text[0]] + text[1..];
    }
  }

  /** repr leaves a text as it is exactly if it has only plain characters and not both kinds of quotes. */
  lemma EscapedExact(text: string)
    ensures Escaped(text) == text <==> PlainText(text)
  {
    EscapedLength(text, '\'' in text && '"' in text);
  }

  // ----- names

  /** What the lexer goes by besides the text: the rulebase's prefix and its declared properties. */
  datatype Lexicon = Lexicon(prefix: string, properties: set<string>)

  const KEYWORDS: set<string> := {
    "alias", "banner", "choices", "choicegroup", "condition", "debug", "default", "dependent", "derive", "enum",
    "expert", "explanation", "give", "icon", "like", "menu", "nohelp", "on", "prefix", "prohibit", "property", "range",
    "require", "save", "start", "suppress", "symbols", "text", "trits", "unless", "warndepend", "when"
  }

  const WORD_OPERATORS: set<string> := {"and", "or", "implies"}

  predicate IsDigit(c: char) { '0' <= c <= '9' }

  predicate IsHexDigit(c: char) { IsDigit(c) || 'a' <= c <= 'f' || 'A' <= c <= 'F' }

  /** The characters of which the lexer makes one token. */
  predicate IsWordChar(c: char) { IsDigit(c) || 'a' <= c <= 'z' || 'A' <= c <= 'Z' || c == '_' }

  predicate StartsHex(text: string) { |text| > 2 && text[0] == '0' && text[1] == 'x' && IsHexDigit(text[2]) }

  function HexValue(text: string): nat {
    if text == "" then 0
    else
      var c := text[|text| - 1];
      16 * HexValue(text[..|text| - 1]) +
        if IsDigit(c) then (c - '0') as nat else if 'a' <= c <= 'f' then (c - 'a') as nat + 10
        else if 'A' <= c <= 'F' then (c - 'A') as nat + 10 else 0
  }

  /** A decimal without leading zeros. */
  function Shortened(text: string): string {
    if |text| > 1 && text[0] == '0' then Shortened(text[1..]) else text
  }

  /**
   * What the lexer and parse_atom make of a printed name; None where the lexer raises an exception or includes a file,
   * the parser raises one for a keyword, or the name does not make one token.
   */
  function ReadName(lex: Lexicon, text: string): Option<Tree> {
    if text == "" || (exists i | 0 <= i < |text| :: !IsWordChar(text[i])) || text == "source" then None
    else if text in {"n", "m", "y"} then Some(Leaf(Atom(text)))
    else if StartsHex(text) then
      if forall i | 2 <= i < |text| :: IsHexDigit(text[i]) then Some(Leaf(Long(HexValue(text[2..])))) else None
    else if IsDigit(text[0]) then
      if forall i | 0 <= i < |text| :: IsDigit(text[i]) then Some(Leaf(Atom(Shortened(text)))) else None
    else if text in KEYWORDS then None
    else if text in WORD_OPERATORS || text in lex.properties then Some(Missing)
    else if lex.prefix <= text then Some(Leaf(Word(text[|lex.prefix|..])))
    else Some(Leaf(Word(text)))
  }

  /** Names that are read as themselves. */
  predicate PlainName(lex: Lexicon, text: string) {
    && text != "" && !IsDigit(text[0]) && (forall i | 0 <= i < |text| :: IsWordChar(text[i]))
    && text !in {"n", "m", "y", "source"} && text !in KEYWORDS && text !in WORD_OPERATORS && text !in lex.properties
    && (lex.prefix == "" || !(lex.prefix <= text))
  }

  lemma NameExact(lex: Lexicon, text: string)
    ensures ReadName(lex, text) == Some(Leaf(Word(text))) <==> PlainName(lex, text)
    ensures ReadName(lex, text).Some? ==> Readable(ReadName(lex, text).value)
  {
    hide HexValue, Shortened;
    if lex.prefix <= text { assert lex.prefix != "" ==> |text[|lex.prefix|..]| < |text|; }
    if lex.prefix == "" { assert text[0..] == text; }
  }

  /** A hole is printed as None, and comes back as a hole only if that is the name of a property. */
  lemma HoleExact(lex: Lexicon)
    ensures ReadName(lex, "None") == Some(Missing) <==> "None" in lex.properties
  {
    assert "None"[0] == 'N' && !StartsHex("None");
    assert forall i | 0 <= i < |"None"| :: IsWordChar("None"[i]);
    assert "None" !in KEYWORDS && "None" !in WORD_OPERATORS && "None" !in {"n", "m", "y"} && "None" != "source";
  }

  // ----- the tokens of a printed expression

  function Both(a: Option<Tree>, b: Option<Tree>, op: Infix): Option<Tree> {
    if a.Some? && b.Some? then Some(Binary(op, a.value, b.value)) else None
  }

  /**
   * The expression that the lexer makes of the printed one, if its text makes tokens and no keyword stands for an atom.
   * At a long, printed with its L, the lexer raises an exception; a string's escapes it takes for what they look like.
   */
  function Spelt(lex: Lexicon, e: Tree): Option<Tree> {
    match e
    case Leaf(Long(_)) => None
    case Leaf(Str(text)) => Some(Leaf(Str(Escaped(text))))
    case Leaf(Word(text)) => ReadName(lex, text)
    case Leaf(t) => Some(e)
    case Missing => ReadName(lex, "None")
    case Negation(a) => var x := Spelt(lex, a); if x.Some? then Some(Negation(x.value)) else None
    case Choice(g, a, b) =>
      var (x, y, z) := (Spelt(lex, g), Spelt(lex, a), Spelt(lex, b));
      if x.Some? && y.Some? && z.Some? then Some(Choice(x.value, y.value, z.value)) else None
    case Binary(op, a, b) => Both(Spelt(lex, a), Spelt(lex, b), op)
  }

  /** The lexer has no `not` operator: it reads the printed `not` as a word. What starts no atom is a hole. */
  function Layout(e: Tree): seq<Token>
    decreases e, 1
  {
    match e
    case Leaf(t) => [t]
    case Missing => [Other("")]
    case Negation(a) => [Word("not")] + Layout(a)
    case _ => [Open] + Inside(e) + [Close]
  }

  /** The tokens of a compound expression without its outer parentheses. */
  function Inside(e: Tree): seq<Token>
    requires e.Choice? || e.Binary?
    decreases e, 0
  {
    match e
    case Choice(g, a, b) => Layout(g) + [Question] + Layout(a) + [Colon] + Layout(b)
    case Binary(op, a, b) => Layout(a) + [Operator(op)] + Layout(b)
  }

  /** Printing an expression and parsing its text. */
  function Reread(lex: Lexicon, e: Tree): Parsed {
    var x := Spelt(lex, e);
    if x.Some? then ParseExpr(Layout(x.value)) else Bad("no tokens")
  }

  // ----- the round trip

  function ParseAt(level: nat, ts: seq<Token>): Parsed
    requires level <= 9
  {
    match level
    case 0 => ParseAtom(ts)
    case 1 => ParseTerm(ts)
    case 2 => ParseRelational(ts)
    case 3 => ParseAssertion(ts)
    case 4 => ParseConjunct(ts)
    case 5 => ParseDisjunct(ts)
    case 6 => ParseFactor(ts)
    case 7 => ParseSummand(ts)
    case 8 => ParseTernary(ts)
    case _ => ParseExpr(ts)
  }

  /** None of the functions above `lo` up to `hi` would read on at the first token of `rest`. */
  predicate Quiet(lo: int, hi: int, rest: seq<Token>) {
    !(First(rest).Operator? && lo < LevelOf(First(rest).op) <= hi) && !(First(rest).Question? && lo < 8 <= hi)
  }

  /** A parse that a higher function would not continue is also that function's parse. */
  lemma {:induction false} Lift(lo: nat, hi: nat, ts: seq<Token>, e: Tree, rest: seq<Token>)
    requires lo <= hi <= 9 && ParseAt(lo, ts) == Ok(e, rest)
    requires Quiet(lo, hi, rest) && (lo < 3 ==> !First(ts).NotToken?)
    ensures ParseAt(hi, ts) == Ok(e, rest)
  {
    if lo >= hi {
    } else {
      Lift(lo, hi - 1, ts, e, rest);
      LiftOne(hi - 1, ts, e, rest);
    }
  }

  lemma LiftOne(level: nat, ts: seq<Token>, e: Tree, rest: seq<Token>)
    requires level < 9 && ParseAt(level, ts) == Ok(e, rest)
    requires Quiet(level, level + 1, rest) && (level < 3 ==> !First(ts).NotToken?)
    ensures ParseAt(level + 1, ts) == Ok(e, rest)
  {
  }

  predicate Readable(e: Tree) { ProperLeaves(e) && Positive(e) }

  lemma LayoutStart(e: Tree, rest: seq<Token>)
    requires Readable(e)
    ensures Layout(e) != [] && First(Layout(e) + rest) == Layout(e)[0] && !First(Layout(e) + rest).NotToken?
  {
  }

  /** A laid out operand is read back by any of the parsing functions, up to a token that would not continue it. */
  lemma {:induction false} Operand(level: nat, e: Tree, rest: seq<Token>)
    requires Readable(e) && level <= 9 && Quiet(0, level, rest)
    ensures ParseAt(level, Layout(e) + rest) == Ok(e, rest)
    decreases e, 1
  {
    var ts := Layout(e) + rest;
    LayoutStart(e, rest);
    assert ParseAtom(ts) == Ok(e, rest) by {
      if e.Leaf? || e.Missing? {
        assert Rest(ts) == rest;
      } else {
        var inner := [Close] + rest;
        assert Rest(ts) == Inside(e) + inner;
        Compound(e, inner);
        assert Rest(inner) == rest;
      }
    }
    Lift(0, level, ts, e, rest);
  }

  /** The level at which the parser looks for the left and for the right operand. */
  function LeftLevel(op: Infix): nat {
    match LevelOf(op)
    case 2 => 1
    case 6 => 5
    case level => level - 1
  }

  function RightLevel(op: Infix): nat {
    match LevelOf(op)
    case 2 => 1
    case 6 => 5
    case 7 => 9
    case level => level
  }

  /** How the function for the operator puts the operands' parses together. */
  lemma Combine(op: Infix, ts: seq<Token>, a: Tree, next: seq<Token>, b: Tree, rest: seq<Token>)
    requires ParseAt(LeftLevel(op), ts) == Ok(a, next) && next != [] && next[0] == Operator(op)
    requires ParseAt(RightLevel(op), next[1..]) == Ok(b, rest)
    ensures ParseAt(LevelOf(op), ts) == Ok(Binary(op, a, b), rest)
  {
  }

  lemma CombineChoice(ts: seq<Token>, g: Tree, next: seq<Token>, a: Tree, middle: seq<Token>, b: Tree, rest: seq<Token>)
    requires ParseSummand(ts) == Ok(g, next) && next != [] && next[0].Question?
    requires ParseSummand(next[1..]) == Ok(a, middle) && middle != [] && middle[0].Colon?
    requires ParseSummand(middle[1..]) == Ok(b, rest)
    ensures ParseTernary(ts) == Ok(Choice(g, a, b), rest)
  {
  }

  /** The inside of a laid out compound expression is read back as that expression. */
  lemma {:induction false} Compound(e: Tree, rest: seq<Token>)
    requires Readable(e) && (e.Choice? || e.Binary?) && Quiet(0, 9, rest)
    ensures ParseExpr(Inside(e) + rest) == Ok(e, rest)
    decreases e, 0
  {
    hide ParseAtom, ParseTerm, ParseRelational, ParseAssertion, ParseConjunct, ParseDisjunct, ParseFactor, ParseSummand,
         ParseTernary, ParseExpr, Layout;
    var ts := Inside(e) + rest;
    match e
    case Choice(g, a, b) =>
      var third := Layout(b) + rest;
      var middle := [Colon] + third;
      var next := [Question] + (Layout(a) + middle);
      assert ts == Layout(g) + next;
      assert next[1..] == Layout(a) + middle && middle[1..] == third;
      LayoutStart(g, next);
      Operand(7, g, next);
      Operand(7, a, middle);
      Operand(7, b, rest);
      CombineChoice(ts, g, next, a, middle, b, rest);
      Lift(8, 9, ts, e, rest);
    case Binary(op, a, b) =>
      var next := [Operator(op)] + (Layout(b) + rest);
      assert ts == Layout(a) + next;
      assert next[1..] == Layout(b) + rest;
      LayoutStart(a, next);
      Operand(LeftLevel(op), a, next);
      Operand(RightLevel(op), b, rest);
      Combine(op, ts, a, next, b, rest);
      Lift(LevelOf(op), 9, ts, e, rest);
  }

  // ----- which expressions come back

  /** What is printed at the leaves is read as it is. */
  predicate PlainLeaves(lex: Lexicon, e: Tree) {
    match e
    case Leaf(t) => t.Atom? || (t.Word? && PlainName(lex, t.text)) || (t.Str? && PlainText(t.text))
    case Missing => "None" in lex.properties
    case Negation(a) => PlainLeaves(lex, a)
    case Choice(g, a, b) => PlainLeaves(lex, g) && PlainLeaves(lex, a) && PlainLeaves(lex, b)
    case Binary(_, a, b) => PlainLeaves(lex, a) && PlainLeaves(lex, b)
  }

  /**
   * No `not`, no long, no string that needs an escape, no name that is read as anything else, and no hole, unless
   * there is a property called None.
   */
  predicate Proper(lex: Lexicon, e: Tree) { PlainLeaves(lex, e) && Positive(e) }

  /** Exactly the expressions with plain leaves are spelt as they are. */
  lemma {:induction false} SpeltExact(lex: Lexicon, e: Tree)
    requires ProperLeaves(e)
    ensures Spelt(lex, e) == Some(e) <==> PlainLeaves(lex, e)
    ensures Spelt(lex, e).Some? ==>
              ProperLeaves(Spelt(lex, e).value) && (Positive(Spelt(lex, e).value) <==> Positive(e))
  {
    hide Escaped, PlainText, ReadName, PlainName;
    match e
    case Leaf(t) =>
      if t.Str? { EscapedExact(t.text); }
      if t.Word? { NameExact(lex, t.text); }
    case Missing =>
      NameExact(lex, "None");
      HoleExact(lex);
    case Negation(a) => SpeltExact(lex, a);
    case Choice(g, a, b) =>
      SpeltExact(lex, g);
      SpeltExact(lex, a);
      SpeltExact(lex, b);
    case Binary(_, a, b) =>
      SpeltExact(lex, a);
      SpeltExact(lex, b);
  }

  lemma {:induction false} PlainIsProper(lex: Lexicon, e: Tree)
    requires PlainLeaves(lex, e)
    ensures ProperLeaves(e)
  {
    match e
    case Leaf(_) =>
    case Missing =>
    case Negation(a) => PlainIsProper(lex, a);
    case Choice(g, a, b) =>
      PlainIsProper(lex, g);
      PlainIsProper(lex, a);
      PlainIsProper(lex, b);
    case Binary(_, a, b) =>
      PlainIsProper(lex, a);
      PlainIsProper(lex, b);
  }

  /** Printing and parsing again gives the expression back, with or without its outer parentheses. */
  lemma RoundTrip(lex: Lexicon, e: Tree, rest: seq<Token>)
    requires Proper(lex, e) && Quiet(0, 9, rest)
    ensures Spelt(lex, e) == Some(e)
    ensures ParseExpr(Layout(e) + rest) == Ok(e, rest)
    ensures e.Choice? || e.Binary? ==> ParseExpr(Inside(e) + rest) == Ok(e, rest)
  {
    hide Layout, Inside, Spelt, PlainLeaves, ProperLeaves, Positive;
    PlainIsProper(lex, e);
    SpeltExact(lex, e);
    Operand(9, e, rest);
    if e.Choice? || e.Binary? { Compound(e, rest); }
  }

  lemma {:induction false} LayoutHasNoNot(e: Tree)
    requires ProperLeaves(e)
    ensures NotToken !in Layout(e)
  {
    match e
    case Leaf(_) =>
    case Missing =>
    case Negation(a) => LayoutHasNoNot(a);
    case Choice(g, a, b) =>
      LayoutHasNoNot(g);
      LayoutHasNoNot(a);
      LayoutHasNoNot(b);
    case Binary(_, a, b) =>
      LayoutHasNoNot(a);
      LayoutHasNoNot(b);
  }

  /** An expression survives printing and parsing exactly when it is proper. */
  lemma RoundTripExact(lex: Lexicon, e: Tree)
    ensures Reread(lex, e) == Ok(e, []) <==> Proper(lex, e)
  {
    hide Layout, Spelt, PlainLeaves;
    if !ProperLeaves(e) {
      if PlainLeaves(lex, e) { PlainIsProper(lex, e); }
      return;
    }
    SpeltExact(lex, e);
    if Spelt(lex, e).Some? {
      var x := Spelt(lex, e).value;
      assert Layout(x) + [] == Layout(x);
      if Positive(e) {
        Operand(9, x, []);
      } else {
        LayoutHasNoNot(x);
      }
    }
  }

  /** What a token list without `not` parses to is spelt canonically by its printed form, under the same condition. */
  lemma Canonical(lex: Lexicon, ts: seq<Token>)
    requires NotToken !in ts && ParseExpr(ts).Ok?
    ensures var e := ParseExpr(ts).tree; Reread(lex, e) == Ok(e, []) <==> PlainLeaves(lex, e)
  {
    RoundTripExact(lex, ParseExpr(ts).tree);
  }

  /** With the prefix CONFIG_ declared, CONFIG_3C515 is the name 3C515, which does not come back. */
  lemma StrippedNameLost()
    ensures var lex := Lexicon("CONFIG_", {});
            && ReadName(lex, "CONFIG_3C515") == Some(Leaf(Word("3C515")))
            && !PlainName(lex, "3C515") && Reread(lex, Leaf(Word("3C515"))) != Ok(Leaf(Word("3C515")), [])
  {
    var lex := Lexicon("CONFIG_", {});
    StripName(lex, "CONFIG_3C515");
    hide ReadName;
    RoundTripExact(lex, Leaf(Word("3C515")));
  }

  lemma StripName(lex: Lexicon, text: string)
    requires text == "CONFIG_3C515" && lex.prefix == "CONFIG_" && text !in lex.properties
    ensures ReadName(lex, text) == Some(Leaf(Word("3C515")))
  {
    hide HexValue, Shortened;
    assert lex.prefix == text[..7] && text[7..] == "3C515";
    assert text[0] == 'C' && text !in KEYWORDS && text !in WORD_OPERATORS;
  }
}
