/** The restricted arithmetic evaluator that turns a recognised CAPTCHA
    text such as "8+5" into its answer. Only non-negative integer literals,
    the four binary operators `+ - * /` and parentheses are accepted; `*`
    and `/` bind tighter than `+` and `-`, all four associate to the left,
    division rounds towards negative infinity, and every other input
    (letters, unary minus, empty text, a division by zero) yields `None`
    instead of an exception. */
module Arithmetic {
  import opened Wrappers
  import opened Strings

  datatype Op = Add | Sub | Mul | Div

  datatype Token = Number(n: nat) | Operator(op: Op) | Open | Close

  datatype Expr = Literal(n: nat) | Binary(op: Op, left: Expr, right: Expr)

  // ---------------------------------------------------------------------
  // Lexical level
  // ---------------------------------------------------------------------

  /** Blanks may separate tokens. */
  predicate IsBlank(c: char) {
    c == ' ' || c == '\t'
  }

  function OpOfChar(c: char): Option<Op> {
    if c == '+' then Some(Add)
    else if c == '-' then Some(Sub)
    else if c == '*' then Some(Mul)
    else if c == '/' then Some(Div)
    else None
  }

  function OpChar(op: Op): (c: char)
    ensures OpOfChar(c) == Some(op)
  {
    match op
    case Add => '+'
    case Sub => '-'
    case Mul => '*'
    case Div => '/'
  }

  lemma OpCharNotDigit(op: Op)
    ensures !IsDigit(OpChar(op)) && OpChar(op) != '(' && OpChar(op) != ')'
  {
  }

  /** The characters an accepted expression may contain. */
  predicate InAlphabet(c: char) {
    IsBlank(c) || IsDigit(c) || OpOfChar(c).Some? || c == '(' || c == ')'
  }

  /** Python's integer-literal rule: a numeral of two or more digits may not
      start with `0` unless it is all zeros ("00" is 0, "07" is refused). */
  predicate ValidNumeral(digits: string) {
    0 < |digits| && (digits[0] != '0' || forall i :: 0 <= i < |digits| ==> digits[i] == '0')
  }

  function Cons(t: Token, r: Option<seq<Token>>): Option<seq<Token>> {
    match r
    case None => None
    case Some(ts) => Some([t] + ts)
  }

  function Then(ts: seq<Token>, r: Option<seq<Token>>): Option<seq<Token>> {
    match r
    case None => None
    case Some(us) => Some(ts + us)
  }

  /** What the front of a text holds: a blank (no token) or one token, and
      how many characters it spans. */
  datatype Lexeme = Lexeme(token: Option<Token>, length: nat)

  /** The lexeme at the front of a non-empty text; a numeral is a maximal
      run of digits. `None` for a character outside the alphabet and for a
      numeral with a superfluous leading zero. */
  function NextLexeme(s: string): (r: Option<Lexeme>)
    requires 0 < |s|
    ensures r.Some? ==> 0 < r.value.length <= |s|
    ensures r.Some? ==> forall i :: 0 <= i < r.value.length ==> InAlphabet(s[i])
  {
    if IsBlank(s[0]) then Some(Lexeme(None, 1))
    else if s[0] == '(' then Some(Lexeme(Some(Open), 1))
    else if s[0] == ')' then Some(Lexeme(Some(Close), 1))
    else if OpOfChar(s[0]).Some? then Some(Lexeme(Some(Operator(OpOfChar(s[0]).value)), 1))
    else if IsDigit(s[0]) then
      var n := Run(s, IsDigit);
      if ValidNumeral(s[..n]) then Some(Lexeme(Some(Number(DecimalValue(s[..n]))), n)) else None
    else None
  }

  /** Splits the text into tokens, dropping blanks. */
  function Tokenize(s: string): (r: Option<seq<Token>>)
    ensures r.Some? ==> forall i :: 0 <= i < |s| ==> InAlphabet(s[i])
    decreases |s|
  {
    if |s| == 0 then Some([])
    else match NextLexeme(s)
      case None => None
      case Some(lx) =>
        var rest := Tokenize(s[lx.length..]);
        assert forall i :: lx.length <= i < |s| ==> s[i] == s[lx.length..][i - lx.length];
        if lx.token.Some? then Cons(lx.token.value, rest) else rest
  }

  /** Text made only of blanks has no tokens. */
  lemma {:induction false} TokenizeBlanks(s: string)
    ensures (forall i :: 0 <= i < |s| ==> IsBlank(s[i])) ==> Tokenize(s) == Some([])
    decreases |s|
  {
    if |s| > 0 {
      TokenizeBlanks(s[1..]);
      if forall i :: 0 <= i < |s| ==> IsBlank(s[i]) {
        assert IsBlank(s[0]);
        assert forall i :: 0 <= i < |s[1..]| ==> IsBlank(s[1..][i]) by {
          forall i | 0 <= i < |s[1..]| ensures IsBlank(s[1..][i]) {
            assert s[1..][i] == s[i + 1];
          }
        }
      }
    }
  }

  // ---------------------------------------------------------------------
  // Grammar
  //   expr   ::= term   (('+' | '-') term)*
  //   term   ::= factor (('*' | '/') factor)*
  //   factor ::= number | '(' expr ')'
  // ---------------------------------------------------------------------

  datatype Parsed = Parsed(e: Expr, rest: seq<Token>)

  predicate IsAdditive(t: Token) {
    t.Operator? && (t.op == Add || t.op == Sub)
  }

  predicate IsMultiplicative(t: Token) {
    t.Operator? && (t.op == Mul || t.op == Div)
  }

  function ParseExpr(ts: seq<Token>): (r: Option<Parsed>)
    ensures r.Some? ==> |r.value.rest| < |ts|
    decreases |ts|, 2
  {
    match ParseTerm(ts)
    case None => None
    case Some(p) => ExprTail(p.e, p.rest)
  }

  /** The `(('+' | '-') term)*` loop, folding to the left. */
  function ExprTail(acc: Expr, ts: seq<Token>): (r: Option<Parsed>)
    ensures r.Some? ==> |r.value.rest| <= |ts|
    decreases |ts|, 3
  {
    if |ts| > 0 && IsAdditive(ts[0]) then
      match ParseTerm(ts[1..])
      case None => None
      case Some(p) => ExprTail(Binary(ts[0].op, acc, p.e), p.rest)
    else Some(Parsed(acc, ts))
  }

  function ParseTerm(ts: seq<Token>): (r: Option<Parsed>)
    ensures r.Some? ==> |r.value.rest| < |ts|
    decreases |ts|, 1
  {
    match ParseFactor(ts)
    case None => None
    case Some(p) => TermTail(p.e, p.rest)
  }

  /** The `(('*' | '/') factor)*` loop, folding to the left. */
  function TermTail(acc: Expr, ts: seq<Token>): (r: Option<Parsed>)
    ensures r.Some? ==> |r.value.rest| <= |ts|
    decreases |ts|, 3
  {
    if |ts| > 0 && IsMultiplicative(ts[0]) then
      match ParseFactor(ts[1..])
      case None => None
      case Some(p) => TermTail(Binary(ts[0].op, acc, p.e), p.rest)
    else Some(Parsed(acc, ts))
  }

  function ParseFactor(ts: seq<Token>): (r: Option<Parsed>)
    ensures r.Some? ==> |r.value.rest| < |ts|
    decreases |ts|, 0
  {
    if |ts| == 0 then None
    else match ts[0]
      case Number(n) => Some(Parsed(Literal(n), ts[1..]))
      case Open =>
        (match ParseExpr(ts[1..])
         case Some(p) =>
           if |p.rest| > 0 && p.rest[0] == Close then Some(Parsed(p.e, p.rest[1..])) else None
         case None => None)
      case _ => None
  }

  /** A whole token sequence that forms one expression. */
  function Parse(ts: seq<Token>): Option<Expr> {
    match ParseExpr(ts)
    case Some(p) => if p.rest == [] then Some(p.e) else None
    case None => None
  }

  // ---------------------------------------------------------------------
  // Meaning
  // ---------------------------------------------------------------------

  /** Integer division rounding towards negative infinity (Python's `//`);
      Dafny's own `/` is Euclidean and differs when the divisor is negative. */
  function FloorDiv(a: int, b: int): (q: int)
    requires b != 0
    ensures b > 0 ==> q * b <= a < q * b + b
    ensures b < 0 ==> q * b + b < a <= q * b
  {
    if b > 0 then a / b else (-a) / (-b)
  }

  function Apply(op: Op, a: int, b: int): Option<int> {
    match op
    case Add => Some(a + b)
    case Sub => Some(a - b)
    case Mul => Some(a * b)
    case Div => if b == 0 then None else Some(FloorDiv(a, b))
  }

  function Eval(e: Expr): Option<int> {
    match e
    case Literal(n) => Some(n)
    case Binary(op, l, r) =>
      match (Eval(l), Eval(r))
      case (Some(a), Some(b)) => Apply(op, a, b)
      case _ => None
  }

  /** The evaluator: `None` for anything that is not a well-formed
      expression over the closed grammar, or that divides by zero. */
  function Evaluate(s: string): (r: Option<int>)
    ensures r.Some? ==> forall i :: 0 <= i < |s| ==> InAlphabet(s[i])
  {
    match Tokenize(s)
    case None => None
    case Some(ts) =>
      match Parse(ts)
      case None => None
      case Some(e) => Eval(e)
  }

  // ---------------------------------------------------------------------
  // Printing, and the round trip through text
  // ---------------------------------------------------------------------

  /** The token sequence of an expression, every operation parenthesised. */
  function Tokens(e: Expr): seq<Token> {
    match e
    case Literal(n) => [Number(n)]
    case Binary(op, l, r) => [Open] + Tokens(l) + [Operator(op)] + Tokens(r) + [Close]
  }

  /** The text of an expression, every operation parenthesised. */
  function Show(e: Expr): string {
    match e
    case Literal(n) => NatToDecimal(n)
    case Binary(op, l, r) => "(" + Show(l) + [OpChar(op)] + Show(r) + ")"
  }

  // Regrouping of concatenations, kept apart from the tokenizer's facts.

  lemma ConsChain(x: Token, y: Token, z: Token, r: Option<seq<Token>>)
    ensures Cons(x, Cons(y, Cons(z, r))) == Then([x, y, z], r)
  {
    if r.Some? {
      assert [x] + ([y] + ([z] + r.value)) == [x, y, z] + r.value;
    }
  }

  lemma ConsThenChain(x: Token, a: seq<Token>, y: Token, b: seq<Token>, z: Token, r: Option<seq<Token>>)
    ensures Cons(x, Then(a, Cons(y, Then(b, Cons(z, r))))) == Then([x] + a + [y] + b + [z], r)
  {
    if r.Some? {
      var v := r.value;
      assert [x] + (a + ([y] + (b + ([z] + v)))) == [x] + a + [y] + b + [z] + v;
    }
  }

  lemma ConsConsThree(x: Token, y: Token, p: Token, q: Token, r: Token)
    ensures Cons(x, Cons(y, Some([p, q, r]))) == Some([x, y, p, q, r])
  {
    assert [x] + ([y] + [p, q, r]) == [x, y, p, q, r];
  }

  lemma ThenThreeTwo(x: Token, y: Token, z: Token, p: Token, q: Token)
    ensures Then([x, y, z], Some([p, q])) == Some([x, y, z, p, q])
  {
    assert [x, y, z] + [p, q] == [x, y, z, p, q];
  }

  lemma ShowBinarySplit(op: Op, l: Expr, r: Expr, t: string)
    ensures Show(Binary(op, l, r)) + t == "(" + (Show(l) + ([OpChar(op)] + (Show(r) + (")" + t))))
  {
  }

  lemma BinaryTextSplit(a: nat, op: Op, b: nat, t: string)
    ensures BinaryText(a, op, b) + t == NatToDecimal(a) + ([OpChar(op)] + (NatToDecimal(b) + t))
  {
  }

  lemma ThenThen(a: seq<Token>, b: seq<Token>, r: Option<seq<Token>>)
    ensures Then(a, Then(b, r)) == Then(a + b, r)
  {
    if r.Some? {
      assert a + (b + r.value) == (a + b) + r.value;
    }
  }

  /** A printed numeral followed by a non-digit is read back as one number token. */
  lemma TokenizeNumeral(n: nat, t: string)
    requires |t| == 0 || !IsDigit(t[0])
    ensures Tokenize(NatToDecimal(n) + t) == Cons(Number(n), Tokenize(t))
  {
    var d := NatToDecimal(n);
    var s := d + t;
    RunOfConcat(d, t, IsDigit);
    assert s[..|d|] == d;
    assert s[|d|..] == t;
    DecimalRoundTrip(n);
    assert s[0] == d[0];
    assert NextLexeme(s) == Some(Lexeme(Some(Number(n)), |d|));
  }

  lemma TokenizeSymbol(c: char, x: string)
    requires c == '(' || c == ')' || OpOfChar(c).Some?
    ensures c == '(' ==> Tokenize([c] + x) == Cons(Open, Tokenize(x))
    ensures c == ')' ==> Tokenize([c] + x) == Cons(Close, Tokenize(x))
    ensures OpOfChar(c).Some? ==> Tokenize([c] + x) == Cons(Operator(OpOfChar(c).value), Tokenize(x))
  {
    var s := [c] + x;
    assert s[0] == c && s[1..] == x;
    assert NextLexeme(s).Some? && NextLexeme(s).value.length == 1;
  }

  lemma ConsThen(t: Token, a: seq<Token>, r: Option<seq<Token>>)
    ensures Cons(t, Then(a, r)) == Then([t] + a, r)
  {
    if r.Some? {
      assert [t] + (a + r.value) == ([t] + a) + r.value;
    }
  }

  lemma TokenizeNumeralAlone(n: nat)
    ensures Tokenize(NatToDecimal(n)) == Some([Number(n)])
  {
    TokenizeNumeral(n, "");
    assert NatToDecimal(n) + "" == NatToDecimal(n);
    assert Tokenize("") == Some([]);
    assert [Number(n)] + [] == [Number(n)];
  }

  lemma TokenizeOperatorNumeral(op: Op, n: nat)
    ensures Tokenize([OpChar(op)] + NatToDecimal(n)) == Some([Operator(op), Number(n)])
  {
    TokenizeNumeralAlone(n);
    TokenizeSymbol(OpChar(op), NatToDecimal(n));
    assert [Operator(op)] + [Number(n)] == [Operator(op), Number(n)];
  }

  /** Tokenising the text of an expression yields its tokens, whatever
      non-digit text follows it. */
  lemma {:induction false} TokenizeShow(e: Expr, t: string)
    requires |t| == 0 || !IsDigit(t[0])
    ensures Tokenize(Show(e) + t) == Then(Tokens(e), Tokenize(t))
    decreases e
  {
    match e
    case Literal(n) =>
      TokenizeNumeral(n, t);
      if Tokenize(t).Some? {
        assert [Number(n)] + Tokenize(t).value == Tokens(e) + Tokenize(t).value;
      }
    case Binary(op, l, r) =>
      var close := ")" + t;
      var afterR := Show(r) + close;
      var afterL := [OpChar(op)] + afterR;
      var inner := Show(l) + afterL;
      ShowBinarySplit(op, l, r, t);
      TokenizeSymbol(')', t);
      assert close[0] == ')';
      TokenizeShow(r, close);
      TokenizeSymbol(OpChar(op), afterR);
      OpCharNotDigit(op);
      assert afterL[0] == OpChar(op);
      TokenizeShow(l, afterL);
      TokenizeSymbol('(', inner);
      ConsThenChain(Open, Tokens(l), Operator(op), Tokens(r), Close, Tokenize(t));
  }

  lemma TermTailStops(acc: Expr, ts: seq<Token>)
    requires |ts| == 0 || !IsMultiplicative(ts[0])
    ensures TermTail(acc, ts) == Some(Parsed(acc, ts))
  {
  }

  lemma ExprTailStops(acc: Expr, ts: seq<Token>)
    requires |ts| == 0 || !IsAdditive(ts[0])
    ensures ExprTail(acc, ts) == Some(Parsed(acc, ts))
  {
  }

  /** The tokens of an expression parse back, as a factor, to that
      expression, leaving whatever followed them untouched. */
  lemma {:induction false} ParseFactorTokens(e: Expr, rest: seq<Token>)
    ensures ParseFactor(Tokens(e) + rest) == Some(Parsed(e, rest))
    decreases e
  {
    match e
    case Literal(n) =>
      assert (Tokens(e) + rest)[1..] == rest;
    case Binary(op, l, r) =>
      var closeRest := [Close] + rest;
      var afterL := [Operator(op)] + (Tokens(r) + closeRest);
      var inner := Tokens(l) + afterL;
      assert Tokens(e) + rest == [Open] + inner;
      assert ([Open] + inner)[1..] == inner;
      ParseFactorTokens(l, afterL);
      ParseFactorTokens(r, closeRest);
      assert afterL[1..] == Tokens(r) + closeRest;
      TermTailStops(Binary(op, l, r), closeRest);
      ExprTailStops(Binary(op, l, r), closeRest);
      if op == Mul || op == Div {
        assert TermTail(l, afterL) == Some(Parsed(Binary(op, l, r), closeRest));
        assert ParseTerm(inner) == Some(Parsed(Binary(op, l, r), closeRest));
      } else {
        TermTailStops(l, afterL);
        TermTailStops(r, closeRest);
        assert ParseTerm(Tokens(r) + closeRest) == Some(Parsed(r, closeRest));
        assert ExprTail(l, afterL) == Some(Parsed(Binary(op, l, r), closeRest));
      }
      assert ParseExpr(inner) == Some(Parsed(Binary(op, l, r), closeRest));
      assert closeRest[1..] == rest;
  }

  /** The tokens of an expression parse back to exactly that expression. */
  lemma ParseTokens(e: Expr)
    ensures Parse(Tokens(e)) == Some(e)
  {
    ParseFactorTokens(e, []);
    assert Tokens(e) + [] == Tokens(e);
    assert ParseFactor(Tokens(e)) == Some(Parsed(e, []));
    TermTailStops(e, []);
    assert ParseTerm(Tokens(e)) == Some(Parsed(e, []));
    ExprTailStops(e, []);
    assert ParseExpr(Tokens(e)) == Some(Parsed(e, []));
  }

  /** Only text over the closed alphabet can produce a value: any letter, and
      so any name, attribute or call, gives `None`; so does text that is empty
      or only blanks. */
  lemma EvaluateRejects(s: string)
    ensures Evaluate(s).Some? ==> forall i :: 0 <= i < |s| ==> InAlphabet(s[i])
    ensures (exists i :: 0 <= i < |s| && IsLetter(s[i])) ==> Evaluate(s).None?
    ensures (forall i :: 0 <= i < |s| ==> IsBlank(s[i])) ==> Evaluate(s).None?
  {
    TokenizeBlanks(s);
  }

  /** The evaluator's three stages, composed. */
  lemma EvaluateStages(s: string, ts: seq<Token>, e: Expr)
    requires Tokenize(s) == Some(ts) && Parse(ts) == Some(e)
    ensures Evaluate(s) == Eval(e)
  {
  }

  /** Round trip through text: the evaluator computes, for the printed form
      of any expression, exactly that expression's value. */
  lemma EvaluateShow(e: Expr)
    ensures Evaluate(Show(e)) == Eval(e)
  {
    TokenizeShow(e, "");
    assert Show(e) + "" == Show(e);
    assert Tokens(e) + [] == Tokens(e);
    ParseTokens(e);
    EvaluateStages(Show(e), Tokens(e), e);
  }

  // ---------------------------------------------------------------------
  // Precedence and associativity on unparenthesised text
  // ---------------------------------------------------------------------

  /** `a op b` as text. */
  function BinaryText(a: nat, op: Op, b: nat): string {
    NatToDecimal(a) + [OpChar(op)] + NatToDecimal(b)
  }

  lemma TokenizeBinaryText(a: nat, op: Op, b: nat, t: string)
    requires |t| == 0 || !IsDigit(t[0])
    ensures Tokenize(BinaryText(a, op, b) + t) == Then([Number(a), Operator(op), Number(b)], Tokenize(t))
  {
    var afterOp := NatToDecimal(b) + t;
    var afterA := [OpChar(op)] + afterOp;
    BinaryTextSplit(a, op, b, t);
    TokenizeNumeral(b, t);
    TokenizeSymbol(OpChar(op), afterOp);
    assert afterA[0] == OpChar(op);
    TokenizeNumeral(a, afterA);
    ConsChain(Number(a), Operator(op), Number(b), Tokenize(t));
  }

  lemma TokenizeBinaryTextAlone(a: nat, op: Op, b: nat)
    ensures Tokenize(BinaryText(a, op, b)) == Some([Number(a), Operator(op), Number(b)])
  {
    TokenizeBinaryText(a, op, b, "");
    assert BinaryText(a, op, b) + "" == BinaryText(a, op, b);
    assert Tokenize("") == Some([]);
    assert [Number(a), Operator(op), Number(b)] + [] == [Number(a), Operator(op), Number(b)];
  }

  lemma ParseBinaryTokens(a: nat, op: Op, b: nat)
    ensures Parse([Number(a), Operator(op), Number(b)]) == Some(Binary(op, Literal(a), Literal(b)))
  {
    var ts := [Number(a), Operator(op), Number(b)];
    var t1 := ts[1..];
    assert t1 == [Operator(op), Number(b)];
    assert t1[1..] == [Number(b)];
    assert t1[1..][1..] == [];
    assert ParseFactor(ts) == Some(Parsed(Literal(a), t1));
    assert ParseFactor(t1[1..]) == Some(Parsed(Literal(b), []));
    var e := Binary(op, Literal(a), Literal(b));
    if op == Mul || op == Div {
      assert TermTail(Literal(a), t1) == TermTail(e, []);
      assert ParseTerm(ts) == Some(Parsed(e, []));
    } else {
      assert ParseTerm(ts) == Some(Parsed(Literal(a), t1));
      assert ParseTerm(t1[1..]) == Some(Parsed(Literal(b), []));
      assert ExprTail(Literal(a), t1) == ExprTail(e, []);
    }
    assert ParseExpr(ts) == Some(Parsed(e, []));
  }

  /** Two operands and one operator evaluate to the operation's value;
      a zero divisor gives `None`. */
  lemma EvaluateBinaryText(a: nat, op: Op, b: nat)
    ensures Evaluate(BinaryText(a, op, b)) == Apply(op, a, b)
  {
    TokenizeBinaryTextAlone(a, op, b);
    ParseBinaryTokens(a, op, b);
    EvaluateStages(BinaryText(a, op, b), [Number(a), Operator(op), Number(b)], Binary(op, Literal(a), Literal(b)));
  }

  lemma ParseSumOfProductTokens(a: nat, op: Op, b: nat, c: nat)
    requires op == Add || op == Sub
    ensures Parse([Number(a), Operator(op), Number(b), Operator(Mul), Number(c)])
         == Some(Binary(op, Literal(a), Binary(Mul, Literal(b), Literal(c))))
  {
    var ts := [Number(a), Operator(op), Number(b), Operator(Mul), Number(c)];
    var t1 := ts[1..];
    var t2 := t1[1..];
    assert t2 == [Number(b), Operator(Mul), Number(c)];
    assert t2[1..] == [Operator(Mul), Number(c)];
    assert t2[1..][1..] == [Number(c)];
    assert t2[1..][1..][1..] == [];
    assert ParseTerm(ts) == Some(Parsed(Literal(a), t1));
    assert ParseFactor(t2[1..][1..]) == Some(Parsed(Literal(c), []));
    assert TermTail(Literal(b), t2[1..]) == TermTail(Binary(Mul, Literal(b), Literal(c)), []);
    assert ParseTerm(t2) == Some(Parsed(Binary(Mul, Literal(b), Literal(c)), []));
    assert ExprTail(Literal(a), t1) == ExprTail(Binary(op, Literal(a), Binary(Mul, Literal(b), Literal(c))), []);
    assert ParseExpr(ts) == Some(Parsed(Binary(op, Literal(a), Binary(Mul, Literal(b), Literal(c))), []));
  }

  lemma TokenizeSumOfProduct(a: nat, op: Op, b: nat, c: nat)
    ensures Tokenize(NatToDecimal(a) + ([OpChar(op)] + BinaryText(b, Mul, c)))
         == Some([Number(a), Operator(op), Number(b), Operator(Mul), Number(c)])
  {
    var tail := [OpChar(op)] + BinaryText(b, Mul, c);
    TokenizeBinaryTextAlone(b, Mul, c);
    TokenizeSymbol(OpChar(op), BinaryText(b, Mul, c));
    assert tail[0] == OpChar(op);
    TokenizeNumeral(a, tail);
    ConsConsThree(Number(a), Operator(op), Number(b), Operator(Mul), Number(c));
  }

  lemma SumOfProductText(a: nat, op: Op, b: nat, c: nat)
    ensures NatToDecimal(a) + [OpChar(op)] + BinaryText(b, Mul, c)
         == NatToDecimal(a) + ([OpChar(op)] + BinaryText(b, Mul, c))
  {
  }

  lemma EvalSumOfProduct(a: nat, op: Op, b: nat, c: nat)
    ensures Eval(Binary(op, Literal(a), Binary(Mul, Literal(b), Literal(c)))) == Apply(op, a, b * c)
  {
    assert Eval(Binary(Mul, Literal(b), Literal(c))) == Some(b * c);
  }

  /** `a + b * c` and `a - b * c`: the product is formed first. */
  lemma ProductBindsTighter(a: nat, op: Op, b: nat, c: nat)
    requires op == Add || op == Sub
    ensures Evaluate(NatToDecimal(a) + [OpChar(op)] + BinaryText(b, Mul, c)) == Apply(op, a, b * c)
  {
    var text := NatToDecimal(a) + ([OpChar(op)] + BinaryText(b, Mul, c));
    SumOfProductText(a, op, b, c);
    TokenizeSumOfProduct(a, op, b, c);
    ParseSumOfProductTokens(a, op, b, c);
    var e := Binary(op, Literal(a), Binary(Mul, Literal(b), Literal(c)));
    EvaluateStages(text, [Number(a), Operator(op), Number(b), Operator(Mul), Number(c)], e);
    EvalSumOfProduct(a, op, b, c);
  }

  lemma ParseLeftAssociativeTokens(a: nat, b: nat, c: nat)
    ensures Parse([Number(a), Operator(Sub), Number(b), Operator(Sub), Number(c)])
         == Some(Binary(Sub, Binary(Sub, Literal(a), Literal(b)), Literal(c)))
  {
    var ts := [Number(a), Operator(Sub), Number(b), Operator(Sub), Number(c)];
    var t1 := ts[1..];
    var t2 := t1[1..];
    var t3 := t2[1..];
    var t4 := t3[1..];
    assert t1 == [Operator(Sub), Number(b), Operator(Sub), Number(c)];
    assert t2 == [Number(b), Operator(Sub), Number(c)];
    assert t3 == [Operator(Sub), Number(c)];
    assert t4 == [Number(c)] && t4[1..] == [];
    var ab := Binary(Sub, Literal(a), Literal(b));
    var abc := Binary(Sub, ab, Literal(c));
    assert ParseFactor(ts) == Some(Parsed(Literal(a), t1));
    TermTailStops(Literal(a), t1);
    assert ParseTerm(ts) == Some(Parsed(Literal(a), t1));
    assert ParseFactor(t2) == Some(Parsed(Literal(b), t3));
    TermTailStops(Literal(b), t3);
    assert ParseTerm(t2) == Some(Parsed(Literal(b), t3));
    assert ParseFactor(t4) == Some(Parsed(Literal(c), []));
    TermTailStops(Literal(c), []);
    assert ParseTerm(t4) == Some(Parsed(Literal(c), []));
    ExprTailStops(abc, []);
    assert ExprTail(ab, t3) == ExprTail(abc, []);
    assert ExprTail(Literal(a), t1) == ExprTail(ab, t3);
    assert ParseExpr(ts) == Some(Parsed(abc, []));
  }

  lemma TokenizeDifferences(a: nat, b: nat, c: nat)
    ensures Tokenize(BinaryText(a, Sub, b) + ([OpChar(Sub)] + NatToDecimal(c)))
         == Some([Number(a), Operator(Sub), Number(b), Operator(Sub), Number(c)])
  {
    var tail := [OpChar(Sub)] + NatToDecimal(c);
    TokenizeOperatorNumeral(Sub, c);
    assert tail[0] == OpChar(Sub);
    TokenizeBinaryText(a, Sub, b, tail);
    ThenThreeTwo(Number(a), Operator(Sub), Number(b), Operator(Sub), Number(c));
  }

  lemma DifferencesText(a: nat, b: nat, c: nat)
    ensures BinaryText(a, Sub, b) + "-" + NatToDecimal(c) == BinaryText(a, Sub, b) + ([OpChar(Sub)] + NatToDecimal(c))
  {
  }

  lemma EvalDifferences(a: nat, b: nat, c: nat)
    ensures Eval(Binary(Sub, Binary(Sub, Literal(a), Literal(b)), Literal(c))) == Some(a - b - c)
  {
    assert Eval(Binary(Sub, Literal(a), Literal(b))) == Some(a - b);
  }

  /** `a - b - c` groups to the left: `(a - b) - c`. */
  lemma SubtractionAssociatesLeft(a: nat, b: nat, c: nat)
    ensures Evaluate(BinaryText(a, Sub, b) + "-" + NatToDecimal(c)) == Some(a - b - c)
  {
    var text := BinaryText(a, Sub, b) + ([OpChar(Sub)] + NatToDecimal(c));
    DifferencesText(a, b, c);
    TokenizeDifferences(a, b, c);
    ParseLeftAssociativeTokens(a, b, c);
    var e := Binary(Sub, Binary(Sub, Literal(a), Literal(b)), Literal(c));
    EvaluateStages(text, [Number(a), Operator(Sub), Number(b), Operator(Sub), Number(c)], e);
    EvalDifferences(a, b, c);
  }

  lemma TokenizeProductText(x: Expr, c: nat)
    ensures Tokenize(Show(x) + "*" + NatToDecimal(c)) == Some(Tokens(x) + [Operator(Mul), Number(c)])
  {
    var tail := [OpChar(Mul)] + NatToDecimal(c);
    assert Show(x) + "*" + NatToDecimal(c) == Show(x) + tail;
    TokenizeOperatorNumeral(Mul, c);
    assert tail[0] == '*';
    TokenizeShow(x, tail);
  }

  lemma ParseProductTokens(x: Expr, c: nat)
    ensures Parse(Tokens(x) + [Operator(Mul), Number(c)]) == Some(Binary(Mul, x, Literal(c)))
  {
    var rest := [Operator(Mul), Number(c)];
    ParseFactorTokens(x, rest);
    assert rest[1..] == [Number(c)] && rest[1..][1..] == [];
    assert ParseFactor(rest[1..]) == Some(Parsed(Literal(c), []));
    assert TermTail(x, rest) == TermTail(Binary(Mul, x, Literal(c)), []);
    assert ParseTerm(Tokens(x) + rest) == Some(Parsed(Binary(Mul, x, Literal(c)), []));
    assert ParseExpr(Tokens(x) + rest) == Some(Parsed(Binary(Mul, x, Literal(c)), []));
  }

  /** A parenthesised expression followed by `* c` multiplies its value by `c`. */
  lemma ParenthesesGroupFirst(x: Expr, c: nat)
    requires x.Binary?
    ensures Evaluate(Show(x) + "*" + NatToDecimal(c))
         == (match Eval(x) case Some(v) => Some(v * c) case None => None)
  {
    var ts := Tokens(x) + [Operator(Mul), Number(c)];
    TokenizeProductText(x, c);
    ParseProductTokens(x, c);
    EvaluateStages(Show(x) + "*" + NatToDecimal(c), ts, Binary(Mul, x, Literal(c)));
  }

  /** A lone numeral evaluates to its value. */
  lemma EvaluateNumeral(n: nat)
    ensures Evaluate(NatToDecimal(n)) == Some(n)
  {
    var ts := [Number(n)];
    TokenizeNumeralAlone(n);
    assert ts[1..] == [];
    assert ParseFactor(ts) == Some(Parsed(Literal(n), []));
    TermTailStops(Literal(n), []);
    ExprTailStops(Literal(n), []);
    assert ParseExpr(ts) == Some(Parsed(Literal(n), []));
    EvaluateStages(NatToDecimal(n), ts, Literal(n));
  }
}
