/** What the formula engine of `ComputedCells` promises: column letters are a
    bijection with indexes, the lexer reads back what a token list prints as,
    the parser evaluates every expression tree by the usual precedence, a
    failing formula only nulls its own cell, and applying the columns twice
    changes nothing once no formula reads a computed column. */
module ComputedCellsProperties {
  import opened Wrappers
  import opened Text
  import opened Values
  import opened ComputedCells

  // ================================================================ column letters

  /** The letter for a bijective base-26 digit 1..26. */
  function LetterOf(d: int): (c: char)
    requires 1 <= d <= 26
    ensures IsUpper(c) && LetterDigit(c) == d
  {
    ('A' as int + d - 1) as char
  }

  /** Bijective base-26 numeral of `m` >= 1: 1 = A, 26 = Z, 27 = AA. */
  function Numeral(m: int): (s: string)
    requires m >= 1
    ensures s != [] && AllUpper(s)
    decreases m
  {
    if m <= 26 then [LetterOf(m)] else Numeral((m - 1) / 26) + [LetterOf((m - 1) % 26 + 1)]
  }

  /** The spreadsheet name of a zero-based column index. */
  function ColumnName(index: nat): (s: string)
    ensures s != [] && AllUpper(s)
  {
    Numeral(index + 1)
  }

  lemma {:induction false} LettersValueOfNumeral(m: int)
    requires m >= 1
    ensures LettersValue(Numeral(m)) == m
    decreases m
  {
    var s := Numeral(m);
    if m > 26 {
      var q := (m - 1) / 26;
      LettersValueOfNumeral(q);
      assert s[..|s| - 1] == Numeral(q);
    }
  }

  lemma {:induction false} NumeralOfLettersValue(s: string)
    requires s != [] && AllUpper(s)
    ensures Numeral(LettersValue(s)) == s
    decreases |s|
  {
    var p := s[..|s| - 1];
    var d := LetterDigit(s[|s| - 1]);
    var v := LettersValue(s);
    assert v == LettersValue(p) * 26 + d;
    if p == [] {
      assert s == [s[0]];
    } else {
      NumeralOfLettersValue(p);
      assert (v - 1) / 26 == LettersValue(p);
      assert (v - 1) % 26 + 1 == d;
      assert LetterOf(d) == s[|s| - 1];
      assert s == p + [s[|s| - 1]];
    }
  }

  /** `letters_to_index` reads back every column name. */
  lemma LetterIndexOfColumnName(index: nat)
    ensures LetterIndex(ColumnName(index)) == Ok(index)
  {
    LettersValueOfNumeral(index + 1);
  }

  /** Every non-empty run of capitals is the name of the column it denotes. */
  lemma ColumnNameOfLetterIndex(s: string)
    requires s != [] && AllUpper(s)
    ensures LetterIndex(s).Ok? && ColumnName(LetterIndex(s).value) == s
  {
    NumeralOfLettersValue(s);
  }

  lemma LetterIndexExamples()
    ensures LetterIndex("A") == Ok(0)
    ensures LetterIndex("Z") == Ok(25)
    ensures LetterIndex("AA") == Ok(26)
    ensures LetterIndex("AZ") == Ok(51)
    ensures LetterIndex("BA") == Ok(52)
    ensures LetterIndex("a").Err? && LetterIndex("A1").Err?
    ensures LetterIndex("") == Ok(-1)
  {
    assert "AA"[..1] == "A";
    assert "AZ"[..1] == "A";
    assert "BA"[..1] == "B";
    assert !IsUpper("A1"[1]);
  }

  // ================================================================ lexer

  function TokenText(t: Token): string {
    match t
    case TNum(lit) => lit
    case TRef(name) => name
    case TOp(c) => [c]
  }

  /** A token list printed with one space between tokens. */
  function Render(ts: seq<Token>): string {
    if ts == [] then ""
    else if |ts| == 1 then TokenText(ts[0])
    else TokenText(ts[0]) + " " + Render(ts[1..])
  }

  lemma DecimalChars(lit: string)
    requires IsDecimal(lit)
    ensures lit != [] && IsDigit(lit[0])
    ensures forall k :: 0 <= k < |lit| ==> IsNumberChar(lit[k])
  {
    var n := Span(lit, IsDigit);
    forall k | 0 <= k < |lit|
      ensures IsNumberChar(lit[k])
    {
      if k > n {
        assert lit[k] == lit[n + 1..][k - n - 1];
      }
    }
  }

  lemma UpcaseOfUpper(s: string)
    requires AllUpper(s)
    ensures Upcase(s) == s
  {
  }

  lemma LexAfterBlank(r: string)
    ensures Lex(" " + r) == Lex(r)
  {
    assert (" " + r)[1..] == r;
  }

  lemma LexOneToken(t: Token, rest: string)
    requires WellFormed(t)
    requires rest == [] || rest[0] == ' '
    ensures Lex(TokenText(t) + rest) == Prepend([t], Lex(rest))
  {
    match t
    case TNum(lit) => LexNumber(lit, rest);
    case TRef(name) => LexName(name, rest);
    case TOp(c) => assert ([c] + rest)[1..] == rest;
  }

  lemma LexNumber(lit: string, rest: string)
    requires IsDecimal(lit)
    requires rest == [] || rest[0] == ' '
    ensures Lex(lit + rest) == Prepend([TNum(lit)], Lex(rest))
  {
    var s := lit + rest;
    assert s[..|lit|] == lit;
    assert s[|lit|..] == rest;
    DecimalChars(lit);
    SpanIs(s, IsNumberChar, |lit|);
  }

  lemma LexName(name: string, rest: string)
    requires name != [] && AllUpper(name)
    requires rest == [] || rest[0] == ' '
    ensures Lex(name + rest) == Prepend([TRef(name)], Lex(rest))
  {
    var s := name + rest;
    assert s[..|name|] == name;
    assert s[|name|..] == rest;
    SpanIs(s, IsLetter, |name|);
    UpcaseOfUpper(name);
  }

  /** The lexer reads back every well-formed token list. */
  lemma {:induction false} LexRender(ts: seq<Token>)
    requires AllWellFormed(ts)
    ensures Lex(Render(ts)) == Ok(ts)
  {
    if ts == [] {
    } else if |ts| == 1 {
      assert WellFormed(ts[0]);
      LexOneToken(ts[0], "");
      assert TokenText(ts[0]) + "" == TokenText(ts[0]);
      assert Lex("") == Ok([]);
      assert [ts[0]] + [] == ts;
    } else {
      assert WellFormed(ts[0]);
      LexRender(ts[1..]);
      LexAfterBlank(Render(ts[1..]));
      LexOneToken(ts[0], " " + Render(ts[1..]));
      assert TokenText(ts[0]) + " " + Render(ts[1..]) == TokenText(ts[0]) + (" " + Render(ts[1..]));
      assert [ts[0]] + ts[1..] == ts;
    }
  }

  predicate Foreign(c: char) {
    !IsRegexSpace(c) && !IsNumberChar(c) && !IsLetter(c) && !IsOpChar(c)
  }

  /** A formula holding any character outside the grammar fails to lex. */
  lemma {:induction false} LexRejectsForeign(s: string, i: nat)
    requires i < |s| && Foreign(s[i])
    ensures Lex(s).Err?
    decreases |s|
  {
    if i == 0 {
    } else if IsRegexSpace(s[0]) {
      LexRejectsForeign(s[1..], i - 1);
    } else if IsNumberChar(s[0]) {
      var n := Span(s, IsNumberChar);
      if IsDecimal(s[..n]) {
        assert n <= i;
        LexRejectsForeign(s[n..], i - n);
      }
    } else if IsLetter(s[0]) {
      var n := Span(s, IsLetter);
      assert n <= i;
      LexRejectsForeign(s[n..], i - n);
    } else if IsOpChar(s[0]) {
      LexRejectsForeign(s[1..], i - 1);
    }
  }

  /** A run of digits and dots that is not a decimal literal is an "Invalid number". */
  lemma LexRejectsMalformedNumber(lit: string, rest: string)
    requires lit != [] && forall k :: 0 <= k < |lit| ==> IsNumberChar(lit[k])
    requires !IsDecimal(lit)
    requires rest == [] || !IsNumberChar(rest[0])
    ensures Lex(lit + rest) == Err("Invalid number")
  {
    var s := lit + rest;
    SpanIs(s, IsNumberChar, |lit|);
    assert s[..|lit|] == lit;
  }

  lemma MalformedNumberExamples()
    ensures Lex("1.2.3") == Err("Invalid number")
    ensures Lex("7.") == Err("Invalid number")
    ensures Lex(".5") == Err("Invalid number")
  {
    assert !IsDecimal("1.2.3") by {
      assert Span("1.2.3", IsDigit) == 1 by { SpanIs("1.2.3", IsDigit, 1); }
      assert !AllDigits("1.2.3"[2..]) by { assert "1.2.3"[2..][1] == '.'; }
    }
    LexRejectsMalformedNumber("1.2.3", "");
    assert "1.2.3" + "" == "1.2.3";
    assert !IsDecimal("7.") by { SpanIs("7.", IsDigit, 1); }
    LexRejectsMalformedNumber("7.", "");
    assert "7." + "" == "7.";
    assert !IsDecimal(".5") by { SpanIs(".5", IsDigit, 0); }
    LexRejectsMalformedNumber(".5", "");
    assert ".5" + "" == ".5";
  }

  // ================================================================ parser

  /** Reference expression trees for the formula grammar. */
  datatype Expr = Num(lit: string) | Ref(name: string) | Neg(e: Expr) | Bin(op: char, left: Expr, right: Expr)

  predicate IsBinOp(c: char) { c == '+' || c == '-' || c == '*' || c == '/' }

  predicate WF(e: Expr) {
    match e
    case Num(lit) => IsDecimal(lit)
    case Ref(name) => name != [] && AllUpper(name)
    case Neg(x) => WF(x)
    case Bin(op, l, r) => IsBinOp(op) && WF(l) && WF(r)
  }

  /** The value of a tree against a row, with the service's error for a
      non-numeric reference and a zero divisor; the left operand is
      evaluated first. */
  function Eval(e: Expr, row: seq<Value>): Result<real>
    requires WF(e)
  {
    match e
    case Num(lit) => Ok(DecimalValue(lit))
    case Ref(name) => Reference(row, name)
    case Neg(x) =>
      (match Eval(x, row)
       case Err(m) => Err(m)
       case Ok(v) => Ok(-v))
    case Bin(op, l, r) => Combine(op, Eval(l, row), Eval(r, row))
  }

  /** A binary operator on its operands' results: the left error first,
      then the right one, then the zero divisor. */
  function Combine(op: char, x: Result<real>, y: Result<real>): Result<real> {
    match x
    case Err(m) => Err(m)
    case Ok(a) =>
      match y
      case Err(m) => Err(m)
      case Ok(b) =>
        if op == '+' then Ok(a + b)
        else if op == '-' then Ok(a - b)
        else if op == '*' then Ok(Times(a, b))
        else if b == 0.0 then Err("Divide by zero")
        else Ok(a / b)
  }

  /** A tree printed as tokens, every binary node in parentheses. */
  function Print(e: Expr): (ts: seq<Token>)
    ensures |ts| >= 1
  {
    match e
    case Num(lit) => [TNum(lit)]
    case Ref(name) => [TRef(name)]
    case Neg(x) => [TOp('-')] + Print(x)
    case Bin(op, l, r) => [TOp('(')] + Print(l) + [TOp(op)] + Print(r) + [TOp(')')]
  }

  lemma {:induction false} PrintWellFormed(e: Expr)
    requires WF(e)
    ensures AllWellFormed(Print(e))
  {
    match e
    case Num(_) =>
    case Ref(_) =>
    case Neg(x) => PrintWellFormed(x);
    case Bin(op, l, r) => PrintWellFormed(l); PrintWellFormed(r);
  }

  function Shift(r: Result<real>, p: nat): Result<(real, nat)> {
    match r
    case Ok(v) => Ok((v, p))
    case Err(m) => Err(m)
  }

  /** A factor not followed by `*` or `/` is the whole term. */
  lemma TermOfFactor(toks: seq<Token>, pos: nat, row: seq<Value>)
    requires pos <= |toks| && AllWellFormed(toks)
    requires Factor(toks, pos, row).Ok? ==>
      var p := Factor(toks, pos, row).value.1; !IsOp(toks, p, '*') && !IsOp(toks, p, '/')
    ensures Term(toks, pos, row) == Factor(toks, pos, row)
  {
  }

  /** A term not followed by `+` or `-` is the whole expression. */
  lemma ExpressionOfTerm(toks: seq<Token>, pos: nat, row: seq<Value>)
    requires pos <= |toks| && AllWellFormed(toks)
    requires Term(toks, pos, row).Ok? ==>
      var p := Term(toks, pos, row).value.1; !IsOp(toks, p, '+') && !IsOp(toks, p, '-')
    ensures Expression(toks, pos, row) == Term(toks, pos, row)
  {
  }

  lemma SliceOf(toks: seq<Token>, pos: nat, w: seq<Token>, i: nat, j: nat)
    requires pos + |w| <= |toks| && toks[pos..pos + |w|] == w
    requires i <= j <= |w|
    ensures toks[pos + i..pos + j] == w[i..j]
  {
    forall k | i <= k < j
      ensures toks[pos + k] == w[k]
    {
      assert toks[pos..pos + |w|][k] == toks[pos + k];
    }
  }

  /** The printed form of `e` occurs in `toks` at `pos`. */
  predicate PrintedAt(toks: seq<Token>, pos: nat, e: Expr) {
    pos + |Print(e)| <= |toks| && toks[pos..pos + |Print(e)|] == Print(e)
  }

  /** The layout of a printed binary node at `pos`: its operator at `b`
      and its closing parenthesis at `d`. */
  lemma BinLayout(op: char, l: Expr, r: Expr, toks: seq<Token>, pos: nat, b: nat, d: nat)
    requires PrintedAt(toks, pos, Bin(op, l, r))
    requires b == pos + 1 + |Print(l)| && d == b + 1 + |Print(r)|
    ensures d + 1 == pos + |Print(Bin(op, l, r))| && d < |toks|
    ensures toks[pos] == TOp('(') && toks[b] == TOp(op) && toks[d] == TOp(')')
    ensures PrintedAt(toks, pos + 1, l) && PrintedAt(toks, b + 1, r)
  {
    var pl := Print(l);
    var pr := Print(r);
    assert Print(Bin(op, l, r)) == [TOp('(')] + pl + [TOp(op)] + pr + [TOp(')')];
    Bracketed(toks, pos, TOp('('), pl, TOp(op), pr, TOp(')'));
  }

  /** The parts of `[a] + x + [b] + y + [c]` found at `pos`. */
  lemma Bracketed(toks: seq<Token>, pos: nat, a: Token, x: seq<Token>, b: Token, y: seq<Token>, c: Token)
    requires var w := [a] + x + [b] + y + [c]; pos + |w| <= |toks| && toks[pos..pos + |w|] == w
    ensures toks[pos] == a && toks[pos + 1 + |x|] == b && toks[pos + 2 + |x| + |y|] == c
    ensures toks[pos + 1..pos + 1 + |x|] == x
    ensures toks[pos + 2 + |x|..pos + 2 + |x| + |y|] == y
  {
    var w := [a] + x + [b] + y + [c];
    ElemOf(toks, pos, w, 0);
    ElemOf(toks, pos, w, 1 + |x|);
    ElemOf(toks, pos, w, 2 + |x| + |y|);
    SliceOf(toks, pos, w, 1, 1 + |x|);
    assert w[1..1 + |x|] == x;
    SliceOf(toks, pos, w, 2 + |x|, 2 + |x| + |y|);
    assert w[2 + |x|..2 + |x| + |y|] == y;
  }

  lemma ElemOf(toks: seq<Token>, pos: nat, w: seq<Token>, i: nat)
    requires pos + |w| <= |toks| && toks[pos..pos + |w|] == w
    requires i < |w|
    ensures toks[pos + i] == w[i]
  {
    assert toks[pos..pos + |w|][i] == toks[pos + i];
  }

  /** `x * y` or `x / y` read from `a`, the operator at `b` and a closing
      parenthesis at `d`, where `x` and `y` are what the two factors read. */
  lemma ProductAt(op: char, x: Result<real>, y: Result<real>, toks: seq<Token>, a: nat, b: nat, d: nat, row: seq<Value>)
    requires (op == '*' || op == '/') && AllWellFormed(toks)
    requires a < b < d < |toks| && toks[b] == TOp(op) && toks[d] == TOp(')')
    requires Factor(toks, a, row) == Shift(x, b)
    requires Factor(toks, b + 1, row) == Shift(y, d)
    ensures Expression(toks, a, row) == Shift(Combine(op, x, y), d)
  {
    if x.Ok? {
      assert Term(toks, a, row) == TermTail(toks, b, x.value, row);
      if y.Ok? {
        if op == '*' {
          CloseTailAt(toks, d, Times(x.value, y.value), row);
        } else if y.value != 0.0 {
          CloseTailAt(toks, d, x.value / y.value, row);
        }
      }
    }
    ExpressionOfTerm(toks, a, row);
  }

  /** `x + y` or `x - y` read from `a`, the operator at `b` and a closing
      parenthesis at `d`. */
  lemma SumAt(op: char, x: Result<real>, y: Result<real>, toks: seq<Token>, a: nat, b: nat, d: nat, row: seq<Value>)
    requires (op == '+' || op == '-') && AllWellFormed(toks)
    requires a < b < d < |toks| && toks[b] == TOp(op) && toks[d] == TOp(')')
    requires Factor(toks, a, row) == Shift(x, b)
    requires Factor(toks, b + 1, row) == Shift(y, d)
    ensures Expression(toks, a, row) == Shift(Combine(op, x, y), d)
  {
    ExpressionAt(toks, a, row);
    match x
    case Err(m) =>
      assert Factor(toks, a, row) == Err(m);
      TermOfFactor(toks, a, row);
    case Ok(xv) =>
      assert Factor(toks, a, row) == Ok((xv, b));
      TermOfFactor(toks, a, row);
      assert Expression(toks, a, row) == ExpressionTail(toks, b, xv, row);
      SumTailFrom(op, xv, y, toks, b, d, row);
  }

  /** The `+`/`-` loop from the operator at `b`, after a first term worth
      `xv`, with a closing parenthesis at `d`. */
  lemma SumTailFrom(op: char, xv: real, y: Result<real>, toks: seq<Token>, b: nat, d: nat, row: seq<Value>)
    requires (op == '+' || op == '-') && AllWellFormed(toks)
    requires b < d < |toks| && toks[b] == TOp(op) && toks[d] == TOp(')')
    requires Factor(toks, b + 1, row) == Shift(y, d)
    ensures ExpressionTail(toks, b, xv, row) == Shift(Combine(op, Ok(xv), y), d)
  {
    SumTailAt(op, toks, b, xv, row);
    match y
    case Err(m) =>
      assert Factor(toks, b + 1, row) == Err(m);
      TermOfFactor(toks, b + 1, row);
    case Ok(yv) =>
      assert Factor(toks, b + 1, row) == Ok((yv, d));
      TermOfFactor(toks, b + 1, row);
      var v := SumStep(op == '+', xv, yv);
      assert ExpressionTail(toks, b, xv, row) == ExpressionTail(toks, d, v, row);
      CloseTailAt(toks, d, v, row);
  }

  /** An expression is its first term continued by the tail loop. */
  lemma ExpressionAt(toks: seq<Token>, a: nat, row: seq<Value>)
    requires a <= |toks| && AllWellFormed(toks)
    ensures Expression(toks, a, row) ==
      match Term(toks, a, row)
      case Err(e) => Err(e)
      case Ok((v, p)) => ExpressionTail(toks, p, v, row)
  {
  }

  /** One step of the `+`/`-` loop at an operator. */
  lemma SumTailAt(op: char, toks: seq<Token>, b: nat, acc: real, row: seq<Value>)
    requires (op == '+' || op == '-') && b < |toks| && AllWellFormed(toks) && toks[b] == TOp(op)
    ensures ExpressionTail(toks, b, acc, row) ==
      match Term(toks, b + 1, row)
      case Err(e) => Err(e)
      case Ok((v, p)) => ExpressionTail(toks, p, SumStep(op == '+', acc, v), row)
  {
  }

  /** Both loops stop at a closing parenthesis. */
  lemma CloseTailAt(toks: seq<Token>, d: nat, acc: real, row: seq<Value>)
    requires d < |toks| && AllWellFormed(toks) && toks[d] == TOp(')')
    ensures ExpressionTail(toks, d, acc, row) == Ok((acc, d))
    ensures TermTail(toks, d, acc, row) == Ok((acc, d))
  {
  }

  /** One binary node, given what the parser does on its two operands:
      the opening parenthesis at `pos`, the operator at `b` and the closing
      parenthesis at `d`. */
  lemma FactorOfBin(op: char, x: Result<real>, y: Result<real>, toks: seq<Token>, pos: nat, b: nat, d: nat,
                    row: seq<Value>)
    requires IsBinOp(op) && AllWellFormed(toks)
    requires pos + 1 < b < d < |toks| && toks[pos] == TOp('(') && toks[b] == TOp(op) && toks[d] == TOp(')')
    requires Factor(toks, pos + 1, row) == Shift(x, b)
    requires Factor(toks, b + 1, row) == Shift(y, d)
    ensures Factor(toks, pos, row) == Shift(Combine(op, x, y), d + 1)
  {
    if op == '*' || op == '/' {
      ProductAt(op, x, y, toks, pos + 1, b, d, row);
    } else {
      SumAt(op, x, y, toks, pos + 1, b, d, row);
    }
    FactorAtParen(toks, pos, row);
    ClosedShift(Combine(op, x, y), toks, d);
  }

  /** What a factor starting with `(` makes of the expression inside. */
  function Closed(r: Result<(real, nat)>, toks: seq<Token>): Result<(real, nat)> {
    match r
    case Err(e) => Err(e)
    case Ok((v, p)) => if IsOp(toks, p, ')') then Ok((v, p + 1)) else Err("Missing ')'")
  }

  lemma FactorAtParen(toks: seq<Token>, pos: nat, row: seq<Value>)
    requires pos < |toks| && AllWellFormed(toks) && toks[pos] == TOp('(')
    ensures Factor(toks, pos, row) == Closed(Expression(toks, pos + 1, row), toks)
  {
  }

  lemma ClosedShift(v: Result<real>, toks: seq<Token>, d: nat)
    requires d < |toks| && toks[d] == TOp(')')
    ensures Closed(Shift(v, d), toks) == Shift(v, d + 1)
  {
  }

  /** The parser reads the printed form of a tree at any position of a token
      list, and yields the tree's value and the position after it. */
  lemma {:induction false} FactorOfPrint(e: Expr, toks: seq<Token>, pos: nat, q: nat, row: seq<Value>)
    requires WF(e) && AllWellFormed(toks) && PrintedAt(toks, pos, e) && q == pos + |Print(e)|
    ensures Factor(toks, pos, row) == Shift(Eval(e, row), q)
    decreases e, 2
  {
    match e
    case Num(_) =>
      FactorOfPrintedLeaf(e, toks, pos, row);
    case Ref(_) =>
      FactorOfPrintedLeaf(e, toks, pos, row);
    case Neg(x) =>
      FactorOfPrintedNeg(x, toks, pos, q, row);
    case Bin(op, l, r) =>
      FactorOfPrintedBin(op, l, r, toks, pos, q, row);
  }

  lemma {:induction false} FactorOfPrintedNeg(x: Expr, toks: seq<Token>, pos: nat, q: nat, row: seq<Value>)
    requires WF(Neg(x)) && AllWellFormed(toks) && PrintedAt(toks, pos, Neg(x)) && q == pos + |Print(Neg(x))|
    ensures Factor(toks, pos, row) == Shift(Eval(Neg(x), row), q)
    decreases Neg(x), 0
  {
    NegLayout(x, toks, pos);
    FactorOfPrint(x, toks, pos + 1, q, row);
    FactorOfNeg(x, toks, pos, q, row);
  }

  lemma {:induction false} FactorOfPrintedBin(op: char, l: Expr, r: Expr, toks: seq<Token>, pos: nat, q: nat,
                                               row: seq<Value>)
    requires WF(Bin(op, l, r)) && AllWellFormed(toks) && PrintedAt(toks, pos, Bin(op, l, r))
    requires q == pos + |Print(Bin(op, l, r))|
    ensures Factor(toks, pos, row) == Shift(Eval(Bin(op, l, r), row), q)
    decreases Bin(op, l, r), 1
  {
    var b := pos + 1 + |Print(l)|;
    var d := b + 1 + |Print(r)|;
    BinLayout(op, l, r, toks, pos, b, d);
    FactorOfChildren(op, l, r, toks, pos, b, d, row);
  }

  /** The binary case given the layout: both operands read from their
      printed forms. */
  lemma {:induction false} FactorOfChildren(op: char, l: Expr, r: Expr, toks: seq<Token>, pos: nat, b: nat, d: nat, row: seq<Value>)
    requires WF(Bin(op, l, r)) && AllWellFormed(toks)
    requires b == pos + 1 + |Print(l)| && d == b + 1 + |Print(r)| && d < |toks|
    requires toks[pos] == TOp('(') && toks[b] == TOp(op) && toks[d] == TOp(')')
    requires PrintedAt(toks, pos + 1, l) && PrintedAt(toks, b + 1, r)
    ensures Factor(toks, pos, row) == Shift(Eval(Bin(op, l, r), row), d + 1)
    decreases Bin(op, l, r), 0
  {
    assert IsBinOp(op) && WF(l) && WF(r);
    var x, y := Eval(l, row), Eval(r, row);
    FactorOfPrint(l, toks, pos + 1, b, row);
    FactorOfPrint(r, toks, b + 1, d, row);
    FactorOfBin(op, x, y, toks, pos, b, d, row);
    assert Eval(Bin(op, l, r), row) == Combine(op, x, y);
  }

  lemma LeafLayout(e: Expr, toks: seq<Token>, pos: nat)
    requires e.Num? || e.Ref?
    requires PrintedAt(toks, pos, e)
    ensures |Print(e)| == 1 && toks[pos] == Print(e)[0]
  {
    SliceOf(toks, pos, Print(e), 0, 1);
  }

  /** The layout of a printed negation at `pos`. */
  lemma NegLayout(x: Expr, toks: seq<Token>, pos: nat)
    requires PrintedAt(toks, pos, Neg(x))
    ensures |Print(Neg(x))| == 1 + |Print(x)|
    ensures toks[pos] == TOp('-') && PrintedAt(toks, pos + 1, x)
  {
    var w := Print(Neg(x));
    var n := |Print(x)|;
    assert w == [TOp('-')] + Print(x) && |w| == 1 + n;
    SliceOf(toks, pos, w, 0, 1);
    assert toks[pos] == toks[pos..pos + 1][0] == w[0];
    SliceOf(toks, pos, w, 1, |w|);
    assert w[1..] == Print(x);
    assert toks[pos + 1..pos + 1 + n] == Print(x);
  }

  /** A number or a reference is read as one token. */
  lemma FactorOfPrintedLeaf(e: Expr, toks: seq<Token>, pos: nat, row: seq<Value>)
    requires (e.Num? || e.Ref?) && WF(e) && AllWellFormed(toks) && PrintedAt(toks, pos, e)
    ensures Factor(toks, pos, row) == Shift(Eval(e, row), pos + |Print(e)|)
  {
    LeafLayout(e, toks, pos);
    FactorOfLeaf(e, toks, pos, row);
  }

  lemma FactorOfLeaf(e: Expr, toks: seq<Token>, pos: nat, row: seq<Value>)
    requires (e.Num? || e.Ref?) && WF(e) && AllWellFormed(toks)
    requires pos < |toks| && toks[pos] == Print(e)[0]
    ensures Factor(toks, pos, row) == Shift(Eval(e, row), pos + 1)
  {
  }

  /** A minus sign before a factor negates its value. */
  lemma FactorOfNeg(x: Expr, toks: seq<Token>, pos: nat, q: nat, row: seq<Value>)
    requires WF(Neg(x)) && AllWellFormed(toks)
    requires pos + 1 <= |toks| && toks[pos] == TOp('-')
    requires Factor(toks, pos + 1, row) == Shift(Eval(x, row), q)
    ensures Factor(toks, pos, row) == Shift(Eval(Neg(x), row), q)
  {
    FactorAtMinus(toks, pos, row);
    NegatedShift(x, row, q);
  }

  lemma NegatedShift(x: Expr, row: seq<Value>, q: nat)
    requires WF(x)
    ensures Negated(Shift(Eval(x, row), q)) == Shift(Eval(Neg(x), row), q)
  {
  }

  /** Negating the result of a factor read after a minus sign. */
  function Negated(r: Result<(real, nat)>): Result<(real, nat)> {
    match r
    case Err(e) => Err(e)
    case Ok((v, p)) => Ok((-v, p))
  }

  lemma FactorAtMinus(toks: seq<Token>, pos: nat, row: seq<Value>)
    requires pos < |toks| && AllWellFormed(toks) && toks[pos] == TOp('-')
    ensures Factor(toks, pos, row) == Negated(Factor(toks, pos + 1, row))
  {
  }

  /** A printed tree evaluates, as a whole formula, to the tree's value. */
  lemma EvaluatePrinted(e: Expr, row: seq<Value>)
    requires WF(e)
    ensures AllWellFormed(Print(e))
    ensures EvaluateTokens(Print(e), row) == Eval(e, row)
  {
    var toks := Print(e);
    PrintWellFormed(e);
    assert toks[0..|toks|] == toks;
    FactorOfPrint(e, toks, 0, |Print(e)|, row);
    TermOfFactor(toks, 0, row);
    ExpressionOfTerm(toks, 0, row);
  }

  /** The same from the formula text: lexing and parsing the printed text of
      a tree gives the tree's value. */
  lemma EvaluationOfRendered(e: Expr, row: seq<Value>)
    requires WF(e)
    ensures Evaluation(Render(Print(e)), row) == Eval(e, row)
  {
    EvaluatePrinted(e, row);
    LexRender(Print(e));
  }

  /** Any token after a complete expression that no rule can continue with
      is "Unexpected token". */
  lemma LeftoverToken(e: Expr, t: Token, rest: seq<Token>, row: seq<Value>)
    requires WF(e) && WellFormed(t) && AllWellFormed(rest)
    requires t.TNum? || t.TRef? || t == TOp('(') || t == TOp(')')
    ensures AllWellFormed(Print(e) + [t] + rest)
    ensures EvaluateTokens(Print(e) + [t] + rest, row) ==
      if Eval(e, row).Ok? then Err("Unexpected token") else Eval(e, row)
  {
    var toks := Print(e) + [t] + rest;
    PrintWellFormed(e);
    assert AllWellFormed(toks) by {
      forall k | 0 <= k < |toks| ensures WellFormed(toks[k]) {
        if k < |Print(e)| { assert toks[k] == Print(e)[k]; }
        else if k > |Print(e)| { assert toks[k] == rest[k - |Print(e)| - 1]; }
      }
    }
    assert toks[0..|Print(e)|] == Print(e);
    FactorOfPrint(e, toks, 0, |Print(e)|, row);
    assert toks[|Print(e)|] == t;
    TermOfFactor(toks, 0, row);
    ExpressionOfTerm(toks, 0, row);
  }

  /** `*` binds tighter than `+`. */
  lemma ProductBindsTighter(x: string, y: string, z: string, row: seq<Value>)
    requires IsDecimal(x) && IsDecimal(y) && IsDecimal(z)
    ensures var toks := [TNum(x), TOp('+'), TNum(y), TOp('*'), TNum(z)];
      AllWellFormed(toks) &&
      EvaluateTokens(toks, row) == Ok(DecimalValue(x) + Times(DecimalValue(y), DecimalValue(z)))
  {
    var toks := [TNum(x), TOp('+'), TNum(y), TOp('*'), TNum(z)];
    var vx, vy, vz := DecimalValue(x), DecimalValue(y), DecimalValue(z);
    var p := Times(vy, vz);
    assert TermTail(toks, 3, vy, row) == TermTail(toks, 5, p, row) == Ok((p, 5));
    assert Term(toks, 2, row) == Ok((p, 5));
    assert ExpressionTail(toks, 1, vx, row) == ExpressionTail(toks, 5, vx + p, row) == Ok((vx + p, 5));
    assert TermTail(toks, 1, vx, row) == Ok((vx, 1));
    assert Term(toks, 0, row) == Ok((vx, 1));
  }

  /** `-` associates to the left. */
  lemma DifferenceAssociatesLeft(x: string, y: string, z: string, row: seq<Value>)
    requires IsDecimal(x) && IsDecimal(y) && IsDecimal(z)
    ensures var toks := [TNum(x), TOp('-'), TNum(y), TOp('-'), TNum(z)];
      AllWellFormed(toks) &&
      EvaluateTokens(toks, row) == Ok(DecimalValue(x) - DecimalValue(y) - DecimalValue(z))
  {
    var toks := [TNum(x), TOp('-'), TNum(y), TOp('-'), TNum(z)];
    var vx, vy, vz := DecimalValue(x), DecimalValue(y), DecimalValue(z);
    assert TermTail(toks, 1, vx, row) == Ok((vx, 1));
    assert Term(toks, 0, row) == Ok((vx, 1));
    assert TermTail(toks, 3, vy, row) == Ok((vy, 3));
    assert Term(toks, 2, row) == Ok((vy, 3));
    assert TermTail(toks, 5, vz, row) == Ok((vz, 5));
    assert Term(toks, 4, row) == Ok((vz, 5));
    assert ExpressionTail(toks, 5, vx - vy - vz, row) == Ok((vx - vy - vz, 5));
    assert ExpressionTail(toks, 3, vx - vy, row) == Ok((vx - vy - vz, 5));
    assert ExpressionTail(toks, 1, vx, row) == Ok((vx - vy - vz, 5));
  }

  /** An opening parenthesis needs its closing one. */
  lemma MissingParenthesis(x: string, row: seq<Value>)
    requires IsDecimal(x)
    ensures var toks := [TOp('('), TNum(x)];
      AllWellFormed(toks) && EvaluateTokens(toks, row) == Err("Missing ')'")
  {
    var toks := [TOp('('), TNum(x)];
    var vx := DecimalValue(x);
    assert TermTail(toks, 2, vx, row) == Ok((vx, 2));
    assert Term(toks, 1, row) == Ok((vx, 2));
    assert Expression(toks, 1, row) == Ok((vx, 2));
    assert Factor(toks, 0, row) == Err("Missing ')'");
    assert Term(toks, 0, row) == Err("Missing ')'");
  }

  /** An operator with nothing after it is "Expected value". */
  lemma DanglingOperator(x: string, row: seq<Value>)
    requires IsDecimal(x)
    ensures var toks := [TNum(x), TOp('+')];
      AllWellFormed(toks) && EvaluateTokens(toks, row) == Err("Expected value")
  {
    var toks := [TNum(x), TOp('+')];
    var vx := DecimalValue(x);
    assert TermTail(toks, 1, vx, row) == Ok((vx, 1));
    assert Term(toks, 0, row) == Ok((vx, 1));
    assert Factor(toks, 2, row) == Err("Expected value");
    assert Term(toks, 2, row) == Err("Expected value");
    assert ExpressionTail(toks, 1, vx, row) == Err("Expected value");
  }

  // ================================================================ numbers

  /** A result within 1e-9 of an integer is that Integer. */
  lemma NormalizeNearInteger(v: real, n: int)
    requires Abs(v - n as real) < Tolerance
    ensures Normalize(v) == Int(n)
  {
    var m := RoundHalfAway(v);
    var d := m - n;
    assert d as real == m as real - n as real;
    assert -1.0 < d as real < 1.0;
    assert d == 0;
  }

  /** An integral result is returned as that Integer by the code as
      written, too. */
  lemma NormalizeAsWrittenOfInteger(n: int)
    ensures NormalizeAsWritten(n as real) == Int(n)
  {
    assert Trunc(n as real) == n;
  }

  /** The two readings of `normalize_numeric` differ only where the code as
      written keeps a Float that is within 1e-9 of an integer. */
  lemma NormalizeDiffersOnlyNearIntegers(v: real)
    ensures NormalizeAsWritten(v) != Normalize(v) ==>
      NormalizeAsWritten(v).Float? && Normalize(v).Int?
  {
    if NormalizeAsWritten(v).Int? {
      NormalizeNearInteger(v, Trunc(v));
    }
  }

  /** The code as written: a value just below 435 becomes the Float 435.0,
      not the Integer 435, although it is within 1e-9 of it. */
  lemma NormalizeAsWrittenMissesValueBelowInteger()
    ensures var v := 435.0 - 0.000000000001;
      Abs(v - 435.0) < Tolerance && NormalizeAsWritten(v) == Float(435.0) && Normalize(v) == Int(435)
  {
    var v := 435.0 - 0.000000000001;
    assert Trunc(v) == 434;
    assert RoundHalfAway(v * 1000000.0) == 435000000;
    NormalizeNearInteger(v, 435);
  }

  lemma LexOfDifference()
    ensures Lex("A - B") == Ok([TRef("A"), TOp('-'), TRef("B")])
    ensures Lex("A / B") == Ok([TRef("A"), TOp('/'), TRef("B")])
  {
    var t1 := [TRef("A"), TOp('-'), TRef("B")];
    assert Render(t1) == "A - B";
    LexRender(t1);
    var t2 := [TRef("A"), TOp('/'), TRef("B")];
    assert Render(t2) == "A / B";
    LexRender(t2);
  }

  lemma LetterIndexOfB()
    ensures LetterIndex("B") == Ok(1)
  {
    assert "B"[..0] == "";
  }

  /** "A - B" on a row whose first two cells are numbers. */
  lemma DifferenceOfCells(row: seq<Value>, a: real, b: real)
    requires Reference(row, "A") == Ok(a) && Reference(row, "B") == Ok(b)
    ensures Evaluation("A - B", row) == Ok(a - b)
  {
    LexOfDifference();
    var toks := [TRef("A"), TOp('-'), TRef("B")];
    assert AllWellFormed(toks);
    assert Factor(toks, 0, row) == Ok((a, 1));
    assert Factor(toks, 2, row) == Ok((b, 3));
    DifferenceOfFactors(toks, a, b, row);
    EvaluationOfLexed("A - B", toks, row);
  }

  /** Three tokens with a minus sign in the middle. */
  lemma DifferenceOfFactors(toks: seq<Token>, a: real, b: real, row: seq<Value>)
    requires |toks| == 3 && AllWellFormed(toks) && toks[1] == TOp('-')
    requires Factor(toks, 0, row) == Ok((a, 1)) && Factor(toks, 2, row) == Ok((b, 3))
    ensures Expression(toks, 0, row) == Ok((a - b, 3))
  {
    TermOfFactor(toks, 0, row);
    TermOfFactor(toks, 2, row);
    ExpressionAt(toks, 0, row);
    SumTailAt('-', toks, 1, a, row);
    EndTail(toks, a - b, row);
  }

  lemma EvaluationOfLexed(formula: string, toks: seq<Token>, row: seq<Value>)
    requires Lex(formula) == Ok(toks)
    ensures AllWellFormed(toks)
    ensures Evaluation(formula, row) == EvaluateTokens(toks, row)
  {
  }

  /** Both loops stop at the end of the tokens. */
  lemma EndTail(toks: seq<Token>, acc: real, row: seq<Value>)
    requires AllWellFormed(toks)
    ensures ExpressionTail(toks, |toks|, acc, row) == Ok((acc, |toks|))
    ensures TermTail(toks, |toks|, acc, row) == Ok((acc, |toks|))
  {
  }

  /** "A - B" on a row of two Integers is their difference, as an Integer. */
  lemma DifferenceOfIntegers(x: int, y: int)
    ensures FormulaResult("A - B", [Int(x), Int(y)]) == Ok(Int(x - y))
  {
    var row := [Int(x), Int(y)];
    IntegerCells(x, y);
    DifferenceResult(row, x as real, y as real);
    assert x as real - y as real == (x - y) as real;
    NormalizeAsWrittenOfInteger(x - y);
  }

  lemma DifferenceResult(row: seq<Value>, a: real, b: real)
    requires Reference(row, "A") == Ok(a) && Reference(row, "B") == Ok(b)
    ensures FormulaResult("A - B", row) == Ok(NormalizeAsWritten(a - b))
  {
    DifferenceOfCells(row, a, b);
  }

  lemma IntegerCells(x: int, y: int)
    ensures Reference([Int(x), Int(y)], "A") == Ok(x as real)
    ensures Reference([Int(x), Int(y)], "B") == Ok(y as real)
  {
    LetterIndexOfA();
    LetterIndexOfB();
  }

  lemma LetterIndexOfA()
    ensures LetterIndex("A") == Ok(0)
  {
    assert "A"[..0] == "";
  }

  /** Rows [120, 30] and [80, 95] under "A - B". */
  lemma DifferenceExamples()
    ensures FormulaResult("A - B", [Int(120), Int(30)]) == Ok(Int(90))
    ensures FormulaResult("A - B", [Int(80), Int(95)]) == Ok(Int(-15))
  {
    DifferenceOfIntegers(120, 30);
    DifferenceOfIntegers(80, 95);
  }

  // ================================================================ failures stay in their cell

  /** A formula failing with a rescued error (a ParseError or a
      NonNumericReference) does not end the loop: it writes nil into its own
      cell of that row and leaves every other cell as it was. */
  lemma FailureNullsOnlyItsCell(c: Column, row: seq<Value>, j: nat)
    requires FormulaResult(c.formula, row).Err? && FormulaResult(c.formula, row).error != IndexRangeError
    ensures !ColumnsRaise([c], row)
    ensures ColumnsApplied([c], row) == SetCell(row, c.index, Nil)
    ensures Cell(ColumnsApplied([c], row), c.index) == Nil
    ensures j != c.index ==> Cell(ColumnsApplied([c], row), j) == Cell(row, j)
  {
    assert [c][1..] == [];
  }

  lemma DivideByZeroExample()
    ensures FormulaResult("A / B", [Int(1), Int(0)]) == Err("Divide by zero")
  {
    LexOfDifference();
    IntegerCells(1, 0);
    var toks := [TRef("A"), TOp('/'), TRef("B")];
    var r := [Int(1), Int(0)];
    assert AllWellFormed(toks);
    assert Factor(toks, 0, r) == Ok((1.0, 1));
    assert Factor(toks, 2, r) == Ok((0.0, 3));
    ZeroDivisor(toks, 1.0, r);
    EvaluationOfLexed("A / B", toks, r);
  }

  /** Three tokens with a zero divisor after the slash. */
  lemma ZeroDivisor(toks: seq<Token>, a: real, row: seq<Value>)
    requires |toks| == 3 && AllWellFormed(toks) && toks[1] == TOp('/')
    requires Factor(toks, 0, row) == Ok((a, 1)) && Factor(toks, 2, row) == Ok((0.0, 3))
    ensures Expression(toks, 0, row) == Err("Divide by zero")
  {
    assert TermTail(toks, 1, a, row) == Err("Divide by zero");
    assert Term(toks, 0, row) == Err("Divide by zero");
    ExpressionAt(toks, 0, row);
  }

  // ================================================================ references beyond a C long

  function Pow26(n: nat): nat {
    if n == 0 then 1 else 26 * Pow26(n - 1)
  }

  lemma {:induction false} Pow26Monotone(m: nat, n: nat)
    requires m <= n
    ensures Pow26(m) <= Pow26(n)
    decreases n
  {
    if m < n {
      Pow26Monotone(m, n - 1);
    }
  }

  /** A run of n capitals reads at least 26^(n-1) and at most 2 * 26^n - 2. */
  lemma {:induction false} LettersValueBounds(s: string)
    requires AllUpper(s)
    ensures s != [] ==> LettersValue(s) >= Pow26(|s| - 1)
    ensures LettersValue(s) <= 2 * Pow26(|s|) - 2
  {
    if s != [] {
      var p := s[..|s| - 1];
      assert AllUpper(p);
      LettersValueBounds(p);
      assert 1 <= LetterDigit(s[|s| - 1]) <= 26;
    }
  }

  /** A reference of fifteen or more letters is an index beyond a C long, so
      reading it raises the RangeError, whatever the row holds. */
  lemma LongReferenceRaises(name: string, row: seq<Value>)
    requires AllUpper(name) && |name| >= 15
    ensures Reference(row, name) == Err(IndexRangeError)
  {
    LettersValueBounds(name);
    Pow26Monotone(14, |name| - 1);
    assert Pow26(14) == 64509974703297150976;
  }

  /** A reference of at most thirteen letters is an index within a C long:
      it reads its cell, and fails exactly when that cell is not numeric. */
  lemma ShortReferenceReads(name: string, row: seq<Value>)
    requires AllUpper(name) && 1 <= |name| <= 13
    ensures LetterIndex(name).value < 0x8000_0000_0000_0000
    ensures Reference(row, name).Ok? <==> CoerceNumeric(Cell(row, LetterIndex(name).value)).Some?
  {
    LettersValueBounds(name);
    Pow26Monotone(|name|, 13);
    assert Pow26(13) == 2481152873203736576;
  }

  /** A column whose formula is such a long reference raises in every Array
      row, so the row loop does not go on past it. */
  lemma LongReferenceAbortsRow(name: string, row: seq<Value>, index: nat)
    requires AllUpper(name) && |name| >= 15
    ensures FormulaResult(name, row) == Err(IndexRangeError)
    ensures ColumnsRaise([Column(index, name)], row)
  {
    SingleReference(name, row);
    LongReferenceRaises(name, row);
  }

  /** When the first computed column of a dataset is a long reference and
      the dataset has an Array row, `call` rescues the RangeError and returns
      its input as it was: no column of any dataset is applied. */
  lemma LongReferenceKeepsInput(input: Value, floatText: real -> string, k: nat, j: nat)
    requires input.Hash?
    requires var ds := ReadKey(DeepCopy(input).entries, "datasets");
      ds.Arr? && k < |ds.items| && ds.items[k].Hash? &&
      var rows := ReadKey(ds.items[k].entries, "rows");
      var schema := ReadKey(ds.items[k].entries, "schema");
      rows.Arr? && schema.Arr? && j < |rows.items| && rows.items[j].Arr? &&
      var cols := NormalizedComputedColumns(ds.items[k].entries, |schema.items|, floatText);
      cols != [] && AllUpper(cols[0].formula) && |cols[0].formula| >= 15
    ensures Applied(input, floatText) == input
  {
    var ds := ReadKey(DeepCopy(input).entries, "datasets");
    var d := ds.items[k];
    var rows := ReadKey(d.entries, "rows");
    var schema := ReadKey(d.entries, "schema");
    var cols := NormalizedComputedColumns(d.entries, |schema.items|, floatText);
    var row := rows.items[j].items;
    LongReferenceAbortsRow(cols[0].formula, row, cols[0].index);
    assert ColumnsRaise(cols, row);
    assert RowRaises(cols, rows.items[j]);
    assert DatasetRaises(d, floatText);
    assert AnyDatasetRaises(ds.items, floatText);
  }

  /** A formula of one reference evaluates to that reference. */
  lemma SingleReference(name: string, row: seq<Value>)
    requires name != [] && AllUpper(name)
    ensures Evaluation(name, row) == Reference(row, name)
  {
    var toks := [TRef(name)];
    LexName(name, "");
    assert name + "" == name;
    assert Lex("") == Ok([]);
    assert toks + [] == toks;
    assert Lex(name) == Ok(toks);
    assert AllWellFormed(toks);
    EndTail(toks, if Reference(row, name).Ok? then Reference(row, name).value else 0.0, row);
    TermOfFactor(toks, 0, row);
    ExpressionOfTerm(toks, 0, row);
  }

  /** "A" on a row whose first cell is not numeric fails. */
  lemma NonNumericFirstCell(v: Value)
    requires CoerceNumeric(v).None?
    ensures FormulaResult("A", [v]) == Err("Non-numeric reference")
  {
    var row := [v];
    ReferenceOfFirst(v);
    SingleReference("A", row);
    assert Evaluation("A", row) == Err("Non-numeric reference");
    FormulaOfError("A", row, "Non-numeric reference");
  }

  lemma ReferenceOfFirst(v: Value)
    requires CoerceNumeric(v).None?
    ensures Reference([v], "A") == Err("Non-numeric reference")
  {
    LetterIndexOfA();
  }

  lemma FormulaOfError(formula: string, row: seq<Value>, e: string)
    requires Evaluation(formula, row) == Err(e)
    ensures FormulaResult(formula, row) == Err(e)
  {
  }

  /** A blank text cell makes its reference fail. */
  lemma BlankCellExample()
    ensures FormulaResult("A", [Str("")]) == Err("Non-numeric reference")
  {
    assert CoerceNumeric(Str("")).None?;
    NonNumericFirstCell(Str(""));
  }

  /** A boolean cell makes its reference fail. */
  lemma BooleanCellExample()
    ensures FormulaResult("A", [Bool(true)]) == Err("Non-numeric reference")
  {
    NonNumericFirstCell(Bool(true));
  }

  /** A reference past the end of the row reads nil and fails. */
  lemma MissingCellExample()
    ensures FormulaResult("B", [Int(4)]) == Err("Non-numeric reference")
  {
    assert Render([TRef("B")]) == "B";
    LexRender([TRef("B")]);
    LetterIndexOfB();
    assert Factor([TRef("B")], 0, [Int(4)]) == Err("Non-numeric reference");
    assert Term([TRef("B")], 0, [Int(4)]) == Err("Non-numeric reference");
  }

  // ================================================================ idempotence

  function ColumnIndexes(cols: seq<Column>): set<int> {
    set k | 0 <= k < |cols| :: cols[k].index as int
  }

  /** No reference of the formula names a column of `avoid`. */
  predicate ReadsNone(formula: string, avoid: set<int>) {
    Lex(formula).Ok? ==>
      forall k :: 0 <= k < |Lex(formula).value| && Lex(formula).value[k].TRef? ==>
        LetterIndex(Lex(formula).value[k].name).Ok? && LetterIndex(Lex(formula).value[k].name).value !in avoid
  }

  /** The two rows hold the same cell at every index outside `avoid`. */
  ghost predicate SameOutside(r1: seq<Value>, r2: seq<Value>, avoid: set<int>) {
    forall j: int :: 0 <= j && j !in avoid ==> Cell(r1, j) == Cell(r2, j)
  }

  predicate SameReferences(toks: seq<Token>, r1: seq<Value>, r2: seq<Value>) {
    forall k :: 0 <= k < |toks| && toks[k].TRef? ==> Reference(r1, toks[k].name) == Reference(r2, toks[k].name)
  }

  lemma {:induction false} ExpressionSameReferences(toks: seq<Token>, pos: nat, r1: seq<Value>, r2: seq<Value>)
    requires pos <= |toks| && AllWellFormed(toks) && SameReferences(toks, r1, r2)
    ensures Expression(toks, pos, r1) == Expression(toks, pos, r2)
    decreases |toks| - pos, 3
  {
    TermSameReferences(toks, pos, r1, r2);
    var t := Term(toks, pos, r1);
    if t.Ok? {
      ExpressionTailSameReferences(toks, t.value.1, t.value.0, r1, r2);
    }
  }

  lemma {:induction false} ExpressionTailSameReferences(toks: seq<Token>, pos: nat, acc: real, r1: seq<Value>, r2: seq<Value>)
    requires pos <= |toks| && AllWellFormed(toks) && SameReferences(toks, r1, r2)
    ensures ExpressionTail(toks, pos, acc, r1) == ExpressionTail(toks, pos, acc, r2)
    decreases |toks| - pos, 1
  {
    if IsOp(toks, pos, '+') || IsOp(toks, pos, '-') {
      var op := if IsOp(toks, pos, '+') then '+' else '-';
      SumTailAt(op, toks, pos, acc, r1);
      SumTailAt(op, toks, pos, acc, r2);
      TermSameReferences(toks, pos + 1, r1, r2);
      var t := Term(toks, pos + 1, r1);
      if t.Ok? {
        var acc' := SumStep(op == '+', acc, t.value.0);
        ExpressionTailSameReferences(toks, t.value.1, acc', r1, r2);
      }
    }
  }

  lemma {:induction false} TermSameReferences(toks: seq<Token>, pos: nat, r1: seq<Value>, r2: seq<Value>)
    requires pos <= |toks| && AllWellFormed(toks) && SameReferences(toks, r1, r2)
    ensures Term(toks, pos, r1) == Term(toks, pos, r2)
    decreases |toks| - pos, 2
  {
    FactorSameReferences(toks, pos, r1, r2);
    var f := Factor(toks, pos, r1);
    if f.Ok? {
      TermTailSameReferences(toks, f.value.1, f.value.0, r1, r2);
    }
  }

  lemma {:induction false} TermTailSameReferences(toks: seq<Token>, pos: nat, acc: real, r1: seq<Value>, r2: seq<Value>)
    requires pos <= |toks| && AllWellFormed(toks) && SameReferences(toks, r1, r2)
    ensures TermTail(toks, pos, acc, r1) == TermTail(toks, pos, acc, r2)
    decreases |toks| - pos, 1
  {
    if IsOp(toks, pos, '*') || IsOp(toks, pos, '/') {
      FactorSameReferences(toks, pos + 1, r1, r2);
      var f := Factor(toks, pos + 1, r1);
      if f.Ok? {
        var v := f.value.0;
        if IsOp(toks, pos, '*') {
          TermTailSameReferences(toks, f.value.1, Times(acc, v), r1, r2);
        } else if v != 0.0 {
          TermTailSameReferences(toks, f.value.1, acc / v, r1, r2);
        }
      }
    }
  }

  lemma {:induction false} FactorSameReferences(toks: seq<Token>, pos: nat, r1: seq<Value>, r2: seq<Value>)
    requires pos <= |toks| && AllWellFormed(toks) && SameReferences(toks, r1, r2)
    ensures Factor(toks, pos, r1) == Factor(toks, pos, r2)
    decreases |toks| - pos, 0
  {
    if IsOp(toks, pos, '-') {
      FactorSameReferences(toks, pos + 1, r1, r2);
      FactorAtMinus(toks, pos, r1);
      FactorAtMinus(toks, pos, r2);
    } else if IsOp(toks, pos, '(') {
      ExpressionSameReferences(toks, pos + 1, r1, r2);
      FactorAtParen(toks, pos, r1);
      FactorAtParen(toks, pos, r2);
    } else if pos < |toks| && toks[pos].TRef? {
      assert Reference(r1, toks[pos].name) == Reference(r2, toks[pos].name);
    }
  }

  /** A formula reading no column of `avoid` gives the same cell on two rows
      that agree outside `avoid`. */
  lemma CellValueOutside(formula: string, r1: seq<Value>, r2: seq<Value>, avoid: set<int>)
    requires ReadsNone(formula, avoid) && SameOutside(r1, r2, avoid)
    ensures CellValue(formula, r1) == CellValue(formula, r2)
  {
    if Lex(formula).Ok? {
      var toks := Lex(formula).value;
      assert SameReferences(toks, r1, r2) by {
        forall k | 0 <= k < |toks| && toks[k].TRef?
          ensures Reference(r1, toks[k].name) == Reference(r2, toks[k].name)
        {
          var index := LetterIndex(toks[k].name).value;
          assert WellFormed(toks[k]);
          assert Cell(r1, index) == Cell(r2, index);
        }
      }
      ExpressionSameReferences(toks, 0, r1, r2);
    }
  }

  lemma SetCellOutside(row: seq<Value>, i: nat, v: Value, avoid: set<int>)
    requires i as int in avoid
    ensures SameOutside(SetCell(row, i, v), row, avoid)
    ensures |SetCell(row, i, v)| >= |row|
  {
    var r := SetCell(row, i, v);
    forall j: int | 0 <= j && j !in avoid
      ensures Cell(r, j) == Cell(row, j)
    {
      if j < |r| {
        assert r[j] == Cell(row, j);
      }
    }
  }

  /** Applying columns changes only their own cells and never shortens a row. */
  lemma {:induction false} AppliedOutside(cols: seq<Column>, row: seq<Value>, avoid: set<int>)
    requires ColumnIndexes(cols) <= avoid
    ensures SameOutside(ColumnsApplied(cols, row), row, avoid)
    ensures |ColumnsApplied(cols, row)| >= |row|
    decreases |cols|
  {
    if cols != [] {
      var next := SetCell(row, cols[0].index, CellValue(cols[0].formula, row));
      assert cols[0].index as int in ColumnIndexes(cols);
      SetCellOutside(row, cols[0].index, CellValue(cols[0].formula, row), avoid);
      assert ColumnIndexes(cols[1..]) <= ColumnIndexes(cols) by {
        forall x | x in ColumnIndexes(cols[1..]) ensures x in ColumnIndexes(cols) {
          var k :| 0 <= k < |cols[1..]| && cols[1..][k].index as int == x;
          assert cols[k + 1].index as int == x;
        }
      }
      AppliedOutside(cols[1..], next, avoid);
    }
  }

  /** After one pass every computed cell holds its formula's value on the
      original row. */
  lemma {:induction false} FirstPass(cols: seq<Column>, row: seq<Value>, avoid: set<int>)
    requires DistinctIndexes(cols) && ColumnIndexes(cols) <= avoid
    requires forall k :: 0 <= k < |cols| ==> ReadsNone(cols[k].formula, avoid)
    ensures forall k :: 0 <= k < |cols| ==>
      cols[k].index < |ColumnsApplied(cols, row)| &&
      ColumnsApplied(cols, row)[cols[k].index] == CellValue(cols[k].formula, row)
    decreases |cols|
  {
    if cols != [] {
      var c := cols[0];
      var next := SetCell(row, c.index, CellValue(c.formula, row));
      var rest := cols[1..];
      var result := ColumnsApplied(cols, row);
      assert result == ColumnsApplied(rest, next);
      assert ColumnIndexes(rest) <= avoid by {
        forall x | x in ColumnIndexes(rest) ensures x in avoid {
          var k :| 0 <= k < |rest| && rest[k].index as int == x;
          assert cols[k + 1].index as int == x;
          assert x in ColumnIndexes(cols);
        }
      }
      assert c.index as int in ColumnIndexes(cols);
      SetCellOutside(row, c.index, CellValue(c.formula, row), avoid);
      FirstPass(rest, next, avoid);
      AppliedOutside(rest, next, ColumnIndexes(rest));
      assert c.index as int !in ColumnIndexes(rest) by {
        forall k | 0 <= k < |rest| ensures rest[k].index != c.index {
          assert rest[k] == cols[k + 1];
        }
      }
      assert Cell(result, c.index) == Cell(next, c.index);
      forall k | 0 <= k < |cols|
        ensures cols[k].index < |result| && result[cols[k].index] == CellValue(cols[k].formula, row)
      {
        if k > 0 {
          assert cols[k] == rest[k - 1];
          CellValueOutside(cols[k].formula, next, row, avoid);
        }
      }
    }
  }

  /** A row on which every column already holds its own value is a fixed point. */
  lemma {:induction false} FixedPoint(cols: seq<Column>, row: seq<Value>)
    requires forall k :: 0 <= k < |cols| ==>
      cols[k].index < |row| && row[cols[k].index] == CellValue(cols[k].formula, row)
    ensures ColumnsApplied(cols, row) == row
    decreases |cols|
  {
    if cols != [] {
      assert row[cols[0].index := CellValue(cols[0].formula, row)] == row;
      FixedPoint(cols[1..], row);
    }
  }

  /** Applying the columns twice equals applying them once when the indexes
      are distinct and no formula reads a computed column. */
  lemma ColumnsAppliedIdempotent(cols: seq<Column>, row: seq<Value>)
    requires DistinctIndexes(cols)
    requires forall k :: 0 <= k < |cols| ==> ReadsNone(cols[k].formula, ColumnIndexes(cols))
    ensures ColumnsApplied(cols, ColumnsApplied(cols, row)) == ColumnsApplied(cols, row)
  {
    var avoid := ColumnIndexes(cols);
    var once := ColumnsApplied(cols, row);
    FirstPass(cols, row, avoid);
    AppliedOutside(cols, row, avoid);
    forall k | 0 <= k < |cols|
      ensures once[cols[k].index] == CellValue(cols[k].formula, once)
    {
      CellValueOutside(cols[k].formula, once, row, avoid);
    }
    FixedPoint(cols, once);
  }

  /** What applying the columns does to each row of a dataset: a row that
      is not an Array is kept; an Array row stays an Array, never shrinks and
      keeps every cell outside the computed indexes; and when the indexes are
      distinct and no formula reads a computed column, each computed cell
      holds its formula's value on the original row. */
  lemma RowsAppliedSpec(cols: seq<Column>, rows: seq<Value>, k: nat)
    requires k < |rows|
    ensures !rows[k].Arr? ==> RowsApplied(cols, rows)[k] == rows[k]
    ensures rows[k].Arr? ==> var r := RowsApplied(cols, rows)[k];
      r.Arr? && |r.items| >= |rows[k].items| && SameOutside(r.items, rows[k].items, ColumnIndexes(cols))
    ensures rows[k].Arr? && DistinctIndexes(cols) && ReadNone(cols) ==>
      var r := RowsApplied(cols, rows)[k];
      forall j :: 0 <= j < |cols| ==>
        cols[j].index < |r.items| && r.items[cols[j].index] == CellValue(cols[j].formula, rows[k].items)
  {
    if rows[k].Arr? {
      AppliedOutside(cols, rows[k].items, ColumnIndexes(cols));
      if DistinctIndexes(cols) && ReadNone(cols) {
        FirstPass(cols, rows[k].items, ColumnIndexes(cols));
      }
    }
  }

  /** No formula of the columns reads a computed column. */
  predicate ReadNone(cols: seq<Column>) {
    forall j :: 0 <= j < |cols| ==> ReadsNone(cols[j].formula, ColumnIndexes(cols))
  }

  /** The same for every row of a dataset. */
  lemma RowsAppliedIdempotent(cols: seq<Column>, rows: seq<Value>)
    requires DistinctIndexes(cols)
    requires forall k :: 0 <= k < |cols| ==> ReadsNone(cols[k].formula, ColumnIndexes(cols))
    ensures RowsApplied(cols, RowsApplied(cols, rows)) == RowsApplied(cols, rows)
  {
    forall k | 0 <= k < |rows|
      ensures RowApplied(cols, RowApplied(cols, rows[k])) == RowApplied(cols, rows[k])
    {
      if rows[k].Arr? {
        ColumnsAppliedIdempotent(cols, rows[k].items);
      }
    }
  }

  lemma LiteralFiveCell(row: seq<Value>)
    ensures CellValue("5", row) == Int(5)
  {
    assert IsDecimal("5") by { SpanIs("5", IsDigit, 1); }
    assert Render([TNum("5")]) == "5";
    LexRender([TNum("5")]);
    assert DecimalValue("5") == 5.0 by { SpanIs("5", IsDigit, 1); assert "5"[..1] == "5"; }
    assert Term([TNum("5")], 0, row) == Ok((5.0, 1));
    NormalizeAsWrittenOfInteger(5);
  }

  lemma ReferenceToBCell(row: seq<Value>)
    requires |row| == 2 && (row[1] == Nil || row[1] == Int(5))
    ensures CellValue("B", row) == row[1]
  {
    assert Render([TRef("B")]) == "B";
    LexRender([TRef("B")]);
    LetterIndexOfB();
    if row[1] == Int(5) {
      assert Term([TRef("B")], 0, row) == Ok((5.0, 1));
      NormalizeAsWrittenOfInteger(5);
    } else {
      assert Term([TRef("B")], 0, row) == Err("Non-numeric reference");
    }
  }

  /** Idempotence fails once a formula reads a column computed after it:
      column A is "B" and column B is "5"; the first pass leaves A nil, the
      second copies 5 into it. */
  lemma ForwardReferenceNotIdempotent()
    ensures var cols := [Column(0, "B"), Column(1, "5")];
      ColumnsApplied(cols, [Nil, Nil]) == [Nil, Int(5)] &&
      ColumnsApplied(cols, [Nil, Int(5)]) == [Int(5), Int(5)]
  {
    ForwardReferencePass(Nil, Nil);
    ForwardReferencePass(Nil, Int(5));
  }

  /** One pass of the two columns over a row whose cell B is nil or 5. */
  lemma ForwardReferencePass(a: Value, b: Value)
    requires b == Nil || b == Int(5)
    ensures ColumnsApplied([Column(0, "B"), Column(1, "5")], [a, b]) == [b, Int(5)]
  {
    var cols := [Column(0, "B"), Column(1, "5")];
    assert cols[1..] == [Column(1, "5")] && cols[1..][1..] == [];
    ReferenceToBCell([a, b]);
    assert SetCell([a, b], 0, b) == [b, b];
    LiteralFiveCell([b, b]);
    assert SetCell([b, b], 1, Int(5)) == [b, Int(5)];
  }

  // ================================================================ column specs

  /** `parse_index` reads every column name back. */
  lemma IndexFromColumnName(index: nat)
    ensures IndexFromText(ColumnName(index)) == Some(index)
  {
    var s := ColumnName(index);
    StripOfTrimmed(s);
    assert !IsUnicodeSpace(s[0]);
    assert !IsDigit(s[0]);
    assert !Blank(s) && !AllDigits(s) && AllLetters(s);
    UpcaseOfUpper(s);
    LetterIndexOfColumnName(index);
  }

  lemma UpcaseOfDowncase(s: string)
    requires AllUpper(s)
    ensures Upcase(Downcase(s)) == s
  {
    var d := Downcase(s);
    assert forall i :: 0 <= i < |s| ==> Upper(d[i]) == s[i];
  }

  /** The same in lower case: column names are case-insensitive. */
  lemma IndexFromLowerColumnName(index: nat)
    ensures IndexFromText(Downcase(ColumnName(index))) == Some(index)
  {
    var s := ColumnName(index);
    var d := Downcase(s);
    assert IsLower(d[0]) && IsLower(d[|d| - 1]);
    StripOfTrimmed(d);
    assert !IsUnicodeSpace(d[0]);
    assert !IsDigit(d[0]);
    assert AllLetters(d);
    UpcaseOfDowncase(s);
    LetterIndexOfColumnName(index);
  }

  /** `parse_index` reads every decimal numeral back. */
  lemma IndexFromNumeral(index: nat)
    ensures IndexFromText(NatToString(index)) == Some(index)
  {
    var s := NatToString(index);
    StripOfTrimmed(s);
    assert !IsUnicodeSpace(s[0]);
  }

  /** Every valid spec is kept unless its index was taken before. */
  lemma CollectColumnsComplete(entries: seq<Value>, schemaSize: int, seen: set<nat>, floatText: real -> string)
    ensures var r := CollectColumns(entries, schemaSize, seen, floatText);
      forall k :: 0 <= k < |entries| && ColumnSpec(entries[k], schemaSize, floatText).Some? ==>
        ColumnSpec(entries[k], schemaSize, floatText).value.index in seen + Indexes(r)
  {
    var specs := SpecsOf(entries, schemaSize, floatText);
    CollectColumnsIsKeep(entries, schemaSize, seen, floatText);
    KeepComplete(specs, seen);
  }

  lemma {:induction false} KeepComplete(specs: seq<Option<Column>>, seen: set<nat>)
    ensures forall k :: 0 <= k < |specs| && specs[k].Some? ==> specs[k].value.index in seen + Indexes(Keep(specs, seen))
    decreases |specs|
  {
    if specs != [] {
      var r := Keep(specs, seen);
      var taken := specs[0].Some? && specs[0].value.index !in seen;
      var seen' := if taken then seen + {specs[0].value.index} else seen;
      var rest := Keep(specs[1..], seen');
      KeepComplete(specs[1..], seen');
      assert Indexes(rest) <= Indexes(r) by {
        if taken {
          forall x | x in Indexes(rest) ensures x in Indexes(r) {
            var j :| 0 <= j < |rest| && rest[j].index == x;
            assert r[j + 1] == rest[j];
          }
        }
      }
      if taken {
        assert r[0] == specs[0].value;
      }
      forall k | 0 <= k < |specs| && specs[k].Some?
        ensures specs[k].value.index in seen + Indexes(r)
      {
        if k > 0 {
          assert specs[k] == specs[1..][k - 1];
        }
      }
    }
  }

  /** The specs of the entries, one per entry. */
  function SpecsOf(entries: seq<Value>, schemaSize: int, floatText: real -> string): (r: seq<Option<Column>>)
    ensures |r| == |entries|
    ensures forall k :: 0 <= k < |entries| ==> r[k] == ColumnSpec(entries[k], schemaSize, floatText)
  {
    seq(|entries|, k requires 0 <= k < |entries| => ColumnSpec(entries[k], schemaSize, floatText))
  }

  /** The duplicate filter on its own, over the specs. */
  function Keep(specs: seq<Option<Column>>, seen: set<nat>): seq<Column> {
    if specs == [] then []
    else if specs[0].Some? && specs[0].value.index !in seen then
      [specs[0].value] + Keep(specs[1..], seen + {specs[0].value.index})
    else Keep(specs[1..], seen)
  }

  lemma {:induction false} CollectColumnsIsKeep(entries: seq<Value>, schemaSize: int, seen: set<nat>, floatText: real -> string)
    ensures CollectColumns(entries, schemaSize, seen, floatText) == Keep(SpecsOf(entries, schemaSize, floatText), seen)
    decreases |entries|
  {
    if entries != [] {
      var specs := SpecsOf(entries, schemaSize, floatText);
      assert specs[1..] == SpecsOf(entries[1..], schemaSize, floatText);
      var spec := ColumnSpec(entries[0], schemaSize, floatText);
      if spec.Some? && spec.value.index !in seen {
        CollectColumnsIsKeep(entries[1..], schemaSize, seen + {spec.value.index}, floatText);
      } else {
        CollectColumnsIsKeep(entries[1..], schemaSize, seen, floatText);
      }
    }
  }

  /** `c` is the first spec in `specs` for its index. */
  predicate FirstFor(specs: seq<Option<Column>>, c: Column) {
    exists k :: 0 <= k < |specs| && specs[k] == Some(c) &&
      forall k' :: 0 <= k' < k ==> !(specs[k'].Some? && specs[k'].value.index == c.index)
  }

  lemma {:induction false} KeepIndexes(specs: seq<Option<Column>>, seen: set<nat>)
    ensures forall j :: 0 <= j < |Keep(specs, seen)| ==> Keep(specs, seen)[j].index !in seen
    decreases |specs|
  {
    if specs != [] {
      if specs[0].Some? && specs[0].value.index !in seen {
        KeepIndexes(specs[1..], seen + {specs[0].value.index});
      } else {
        KeepIndexes(specs[1..], seen);
      }
    }
  }

  lemma FirstForShift(specs: seq<Option<Column>>, c: Column)
    requires specs != [] && FirstFor(specs[1..], c)
    requires !(specs[0].Some? && specs[0].value.index == c.index)
    ensures FirstFor(specs, c)
  {
    var k :| 0 <= k < |specs[1..]| && specs[1..][k] == Some(c) &&
      forall k' :: 0 <= k' < k ==> !(specs[1..][k'].Some? && specs[1..][k'].value.index == c.index);
    assert specs[k + 1] == Some(c);
    forall k' | 0 < k' < k + 1
      ensures !(specs[k'].Some? && specs[k'].value.index == c.index)
    {
      assert specs[k'] == specs[1..][k' - 1];
    }
  }

  lemma {:induction false} KeepFirstWins(specs: seq<Option<Column>>, seen: set<nat>)
    ensures forall j :: 0 <= j < |Keep(specs, seen)| ==> FirstFor(specs, Keep(specs, seen)[j])
    decreases |specs|
  {
    if specs != [] {
      var r := Keep(specs, seen);
      if specs[0].Some? && specs[0].value.index !in seen {
        var seen' := seen + {specs[0].value.index};
        var rest := Keep(specs[1..], seen');
        KeepFirstWins(specs[1..], seen');
        KeepIndexes(specs[1..], seen');
        assert FirstFor(specs, r[0]) by { assert specs[0] == Some(r[0]); }
        forall j | 1 <= j < |r| ensures FirstFor(specs, r[j]) {
          assert r[j] == rest[j - 1];
          FirstForShift(specs, r[j]);
        }
      } else {
        KeepFirstWins(specs[1..], seen);
        KeepIndexes(specs[1..], seen);
        forall j | 0 <= j < |r| ensures FirstFor(specs, r[j]) {
          FirstForShift(specs, r[j]);
        }
      }
    }
  }

  /** Every kept column is the spec of the first entry naming its index. */
  lemma CollectColumnsFirstWins(entries: seq<Value>, schemaSize: int, floatText: real -> string)
    ensures var r := CollectColumns(entries, schemaSize, {}, floatText);
      forall j :: 0 <= j < |r| ==> FirstFor(SpecsOf(entries, schemaSize, floatText), r[j])
  {
    CollectColumnsIsKeep(entries, schemaSize, {}, floatText);
    KeepFirstWins(SpecsOf(entries, schemaSize, floatText), {});
  }

  // ================================================================ dataset

  lemma {:induction false} HashSetTwice(entries: seq<(Key, Value)>, k: Key, v: Value, w: Value)
    ensures HashSet(HashSet(entries, k, v), k, w) == HashSet(entries, k, w)
  {
    if entries != [] && entries[0].0 != k {
      HashSetTwice(entries[1..], k, v, w);
      assert HashSet(entries, k, v)[1..] == HashSet(entries[1..], k, v);
    }
  }

  /** The dataset after one application reads back the rows it was given,
      and every other key as before. */
  lemma RowsUpdateReadBack(dataset: seq<(Key, Value)>, rows: seq<Value>)
    ensures var d := HashSet(dataset, KeyUsed(dataset, "rows"), Arr(rows));
      ReadKey(d, "rows") == Arr(rows) && KeyUsed(d, "rows") == KeyUsed(dataset, "rows") &&
      ReadKey(d, "schema") == ReadKey(dataset, "schema") &&
      ReadKey(d, "computed_columns") == ReadKey(dataset, "computed_columns")
  {
    var key := KeyUsed(dataset, "rows");
    ReadKeyAfterSet(dataset, "rows", Arr(rows));
    assert key.name == "rows";
    ReadKeyOther(dataset, key, Arr(rows), "schema");
    ReadKeyOther(dataset, key, Arr(rows), "computed_columns");
  }

  /** A truthy value written under the key a name is read from reads back. */
  lemma ReadKeyAfterSet(entries: seq<(Key, Value)>, name: string, v: Value)
    requires Truthy(v)
    ensures var d := HashSet(entries, KeyUsed(entries, name), v);
      ReadKey(d, name) == v && KeyUsed(d, name) == KeyUsed(entries, name)
  {
    var key := KeyUsed(entries, name);
    var d := HashSet(entries, key, v);
    if key == SymKey(name) {
      assert Get(d, StrKey(name)) == Get(entries, StrKey(name));
    }
  }

  /** Writing one key leaves the reads of any other name as they were. */
  lemma ReadKeyOther(entries: seq<(Key, Value)>, k: Key, v: Value, name: string)
    requires k.name != name
    ensures ReadKey(HashSet(entries, k, v), name) == ReadKey(entries, name)
  {
    var d := HashSet(entries, k, v);
    assert Get(d, StrKey(name)) == Get(entries, StrKey(name));
    assert Get(d, SymKey(name)) == Get(entries, SymKey(name));
  }

  /** Predicate of the idempotence lemma: the columns a dataset asks for do
      not read one another. */
  predicate SelfContained(dataset: seq<(Key, Value)>, floatText: real -> string) {
    var schema := ReadKey(dataset, "schema");
    var cols := if schema.Arr? then NormalizedComputedColumns(dataset, |schema.items|, floatText) else [];
    forall k :: 0 <= k < |cols| ==> ReadsNone(cols[k].formula, ColumnIndexes(cols))
  }

  lemma SelfContainedColumns(dataset: seq<(Key, Value)>, floatText: real -> string)
    requires SelfContained(dataset, floatText) && ReadKey(dataset, "schema").Arr?
    ensures var cols := NormalizedComputedColumns(dataset, |ReadKey(dataset, "schema").items|, floatText);
      forall k :: 0 <= k < |cols| ==> ReadsNone(cols[k].formula, ColumnIndexes(cols))
  {
  }

  /** `apply_dataset!` twice equals once when no formula reads a computed column. */
  lemma DatasetAppliedIdempotent(dataset: seq<(Key, Value)>, floatText: real -> string)
    requires SelfContained(dataset, floatText)
    ensures DatasetApplied(DatasetApplied(dataset, floatText), floatText) == DatasetApplied(dataset, floatText)
  {
    if HasWork(dataset, floatText) {
      AppliedTwice(dataset, floatText);
    } else {
      NoWork(dataset, floatText);
    }
  }

  /** Rows and schema are Arrays and there is a computed column to apply. */
  predicate HasWork(dataset: seq<(Key, Value)>, floatText: real -> string) {
    var rows := ReadKey(dataset, "rows");
    var schema := ReadKey(dataset, "schema");
    rows.Arr? && schema.Arr? && NormalizedComputedColumns(dataset, |schema.items|, floatText) != []
  }

  lemma NoWork(dataset: seq<(Key, Value)>, floatText: real -> string)
    requires !HasWork(dataset, floatText)
    ensures DatasetApplied(dataset, floatText) == dataset
  {
  }

  /** The case where there is something to apply. */
  lemma AppliedTwice(dataset: seq<(Key, Value)>, floatText: real -> string)
    requires SelfContained(dataset, floatText) && HasWork(dataset, floatText)
    ensures DatasetApplied(DatasetApplied(dataset, floatText), floatText) == DatasetApplied(dataset, floatText)
  {
    var items := ReadKey(dataset, "rows").items;
    var schema := ReadKey(dataset, "schema").items;
    var cols := NormalizedComputedColumns(dataset, |schema|, floatText);
    SelfContainedColumns(dataset, floatText);
    var once := RowsApplied(cols, items);
    var key := KeyUsed(dataset, "rows");
    var d := HashSet(dataset, key, Arr(once));
    assert DatasetApplied(dataset, floatText) == d;
    RowsUpdateReadBack(dataset, once);
    NormalizedAfterRowsUpdate(dataset, once, |schema|, floatText);
    RowsAppliedIdempotent(cols, items);
    HashSetTwice(dataset, key, Arr(once), Arr(once));
  }

  lemma NormalizedAfterRowsUpdate(dataset: seq<(Key, Value)>, rows: seq<Value>, n: int, floatText: real -> string)
    ensures NormalizedComputedColumns(HashSet(dataset, KeyUsed(dataset, "rows"), Arr(rows)), n, floatText) ==
      NormalizedComputedColumns(dataset, n, floatText)
  {
    RowsUpdateReadBack(dataset, rows);
  }
}
