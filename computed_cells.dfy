/** Row-level computed columns of a dataset (app/services/ai/artifacts/dataset/computed_cells.rb).

    A dataset may carry `computed_columns`, each an index (an integer, a digit
    string or spreadsheet letters) and a formula over `+ - * /`, parentheses,
    unary minus, decimal literals and column letters. Every formula is
    evaluated against every row of a deep copy of the input; a formula that
    fails for a row sets only that row's cell to nil.

    The module gives the grammar as pure functions (`Lex`, `Expression`,
    `Term`, `Factor`, ...) and the service itself as the class `ComputedCells`,
    whose token cursor and row assignments are imperative, as in the source;
    each method is proved to compute what the functions say. */
module ComputedCells {
  import opened Wrappers
  import opened Text
  import opened Values

  /** A token. A number keeps its literal text; its value is `DecimalValue`. */
  datatype Token = TNum(lit: string) | TRef(name: string) | TOp(op: char)

  /** A normalised computed-column spec. */
  datatype Column = Column(index: nat, formula: string)

  // ================================================================ lexing

  predicate IsNumberChar(c: char) { IsDigit(c) || c == '.' }

  predicate IsOpChar(c: char) {
    c == '+' || c == '-' || c == '*' || c == '/' || c == '(' || c == ')'
  }

  /** Length of the longest prefix of `s` whose characters satisfy `p`. */
  function Span(s: string, p: char -> bool): (n: nat)
    ensures n <= |s|
    ensures forall k :: 0 <= k < n ==> p(s[k])
    ensures n < |s| ==> !p(s[n])
  {
    if s != [] && p(s[0]) then 1 + Span(s[1..], p) else 0
  }

  lemma {:induction false} SpanIs(s: string, p: char -> bool, n: nat)
    requires n <= |s|
    requires forall k :: 0 <= k < n ==> p(s[k])
    requires n < |s| ==> !p(s[n])
    ensures Span(s, p) == n
  {
    if n > 0 {
      SpanIs(s[1..], p, n - 1);
    }
  }

  /** `\A\d+(?:\.\d+)?\z`: digits, optionally followed by a dot and digits. */
  predicate IsDecimal(lit: string) {
    var k := Span(lit, IsDigit);
    k > 0 && (k == |lit| || (lit[k] == '.' && k + 1 < |lit| && AllDigits(lit[k + 1..])))
  }

  /** The exact value of a decimal literal (`String#to_f` on a matching literal). */
  function DecimalValue(lit: string): (v: real)
    requires IsDecimal(lit)
    ensures v >= 0.0
  {
    var k := Span(lit, IsDigit);
    assert AllDigits(lit[..k]);
    var whole := DigitsValue(lit[..k]) as real;
    if k == |lit| then whole
    else whole + DigitsValue(lit[k + 1..]) as real / Pow10(|lit| - k - 1) as real
  }

  /** `-?\d+(?:\.\d+)?` anchored at both ends. */
  predicate IsSignedDecimal(t: string) {
    IsDecimal(t) || (|t| > 0 && t[0] == '-' && IsDecimal(t[1..]))
  }

  function SignedDecimalValue(t: string): real
    requires IsSignedDecimal(t)
  {
    if IsDecimal(t) then DecimalValue(t) else -DecimalValue(t[1..])
  }

  predicate WellFormed(t: Token) {
    match t
    case TNum(lit) => IsDecimal(lit)
    case TRef(name) => name != [] && AllUpper(name)
    case TOp(c) => IsOpChar(c)
  }

  predicate AllWellFormed(toks: seq<Token>) {
    forall k :: 0 <= k < |toks| ==> WellFormed(toks[k])
  }

  function Prepend(ts: seq<Token>, r: Result<seq<Token>>): Result<seq<Token>> {
    match r
    case Ok(rest) => Ok(ts + rest)
    case Err(e) => Err(e)
  }

  /** The tokens of a formula: whitespace is skipped, a run of digits and dots
      must be a decimal literal ("Invalid number"), a run of letters is an
      upper-cased reference, an operator or parenthesis is itself, and any
      other character is an "Invalid token". */
  function Lex(s: string): (r: Result<seq<Token>>)
    ensures r.Ok? ==> AllWellFormed(r.value)
    decreases |s|
  {
    if s == [] then Ok([])
    else if IsRegexSpace(s[0]) then Lex(s[1..])
    else if IsNumberChar(s[0]) then
      var n := Span(s, IsNumberChar);
      if IsDecimal(s[..n]) then Prepend([TNum(s[..n])], Lex(s[n..])) else Err("Invalid number")
    else if IsLetter(s[0]) then
      var n := Span(s, IsLetter);
      var name := Upcase(s[..n]);
      assert AllUpper(name);
      Prepend([TRef(name)], Lex(s[n..]))
    else if IsOpChar(s[0]) then Prepend([TOp(s[0])], Lex(s[1..]))
    else Err("Invalid token")
  }

  // ================================================================ letters

  function LetterDigit(c: char): int { c as int - 'A' as int + 1 }

  /** Bijective base 26 value of a run of capital letters: A = 1, Z = 26, AA = 27. */
  function LettersValue(s: string): (v: int)
    requires AllUpper(s)
    ensures s != [] ==> v >= 1
    ensures s == [] ==> v == 0
  {
    if s == [] then 0 else LettersValue(s[..|s| - 1]) * 26 + LetterDigit(s[|s| - 1])
  }

  /** `letters_to_index`: the zero-based column index of spreadsheet letters;
      any character outside A-Z is an "Invalid ref". */
  function LetterIndex(token: string): (r: Result<int>)
    ensures r.Ok? <==> AllUpper(token)
    ensures r.Ok? && token != [] ==> r.value >= 0
  {
    if AllUpper(token) then Ok(LettersValue(token) - 1) else Err("Invalid ref")
  }

  method LettersToIndex(token: string) returns (r: Result<int>)
    ensures r == LetterIndex(token)
  {
    var value := 0;
    for k := 0 to |token|
      invariant AllUpper(token[..k])
      invariant value == LettersValue(token[..k])
    {
      if !IsUpper(token[k]) {
        return Err("Invalid ref");
      }
      assert token[..k + 1][..k] == token[..k];
      value := value * 26 + LetterDigit(token[k]);
    }
    assert token[..|token|] == token;
    return Ok(value - 1);
  }

  // ================================================================ cells

  /** `row[i]` on a Ruby array: negative indexes count from the end, and an
      index past either end reads nil. */
  function Cell(row: seq<Value>, i: int): Value {
    if 0 <= i < |row| then row[i]
    else if -|row| <= i < 0 then row[|row| + i]
    else Nil
  }

  /** `row[i] = v` on a Ruby array: a row shorter than `i` is padded with nil. */
  function SetCell(row: seq<Value>, i: nat, v: Value): (r: seq<Value>)
    ensures |r| == if i < |row| then |row| else i + 1
    ensures r[i] == v
    ensures forall j :: 0 <= j < |r| && j != i ==> r[j] == Cell(row, j)
  {
    if i < |row| then row[i := v] else row + seq(i - |row|, _ => Nil) + [v]
  }

  /** `coerce_numeric`: numbers as they are, strings that read as a signed
      decimal once stripped, nothing else. */
  function CoerceNumeric(v: Value): (r: Option<real>)
    ensures v.Int? ==> r == Some(v.i as real)
    ensures v.Float? ==> r == Some(v.r)
    ensures v.Str? ==> (r.Some? <==> IsSignedDecimal(Strip(v.s)))
    ensures v.Nil? || v.Bool? || v.Arr? || v.Hash? ==> r.None?
  {
    match v
    case Int(n) => Some(n as real)
    case Float(x) => Some(x)
    case Str(s) =>
      var t := Strip(s);
      if Blank(t) then None
      else if IsSignedDecimal(t) then Some(SignedDecimalValue(t))
      else None
    // nil.to_s is blank; true/false, arrays and hashes never read as a number
    case _ => None
  }

  /** The RangeError `Array#[]` raises for an index of 2^63 or more, which
      does not fit a C long. It is neither a ParseError nor a
      NonNumericReference, so no cell rescues it. */
  const IndexRangeError: string := "bignum too big to convert into `long'"

  /** `reference_value`: the numeric value of the referenced cell. */
  function Reference(row: seq<Value>, name: string): Result<real> {
    match LetterIndex(name)
    case Err(e) => Err(e)
    case Ok(index) => ReadIndex(row, index)
  }

  /** `@row[index]` followed by `coerce_numeric`; an index of 2^63 or more
      raises. */
  function ReadIndex(row: seq<Value>, index: int): Result<real> {
    if index >= 0x8000_0000_0000_0000 then Err(IndexRangeError)
    else
      match CoerceNumeric(Cell(row, index))
      case None => Err("Non-numeric reference")
      case Some(v) => Ok(v)
  }

  // ================================================================ grammar

  // Each parser function takes the token list and a cursor and yields the
  // value and the cursor after it. Measure: tokens left, then the rank
  // Expression 3 > Term 2 > the two loops 1 > Factor 0.

  predicate IsOp(toks: seq<Token>, pos: nat, c: char) {
    pos < |toks| && toks[pos] == TOp(c)
  }

  /** expression := term (('+' | '-') term)* */
  function Expression(toks: seq<Token>, pos: nat, row: seq<Value>): (r: Result<(real, nat)>)
    requires pos <= |toks| && AllWellFormed(toks)
    ensures r.Ok? ==> pos < r.value.1 <= |toks|
    decreases |toks| - pos, 3
  {
    match Term(toks, pos, row)
    case Err(e) => Err(e)
    case Ok((v, p)) => ExpressionTail(toks, p, v, row)
  }

  function ExpressionTail(toks: seq<Token>, pos: nat, acc: real, row: seq<Value>): (r: Result<(real, nat)>)
    requires pos <= |toks| && AllWellFormed(toks)
    ensures r.Ok? ==> pos <= r.value.1 <= |toks|
    decreases |toks| - pos, 1
  {
    if IsOp(toks, pos, '+') || IsOp(toks, pos, '-') then
      match Term(toks, pos + 1, row)
      case Err(e) => Err(e)
      case Ok((v, p)) => ExpressionTail(toks, p, SumStep(IsOp(toks, pos, '+'), acc, v), row)
    else Ok((acc, pos))
  }

  /** `acc + v` or `acc - v`, named so that the solver treats the step as a term. */
  function SumStep(plus: bool, acc: real, v: real): real { if plus then acc + v else acc - v }

  /** Real multiplication, named so that the solver treats products as terms. */
  function Times(a: real, b: real): real { a * b }

  /** term := factor (('*' | '/') factor)*, where a zero divisor is an error. */
  function Term(toks: seq<Token>, pos: nat, row: seq<Value>): (r: Result<(real, nat)>)
    requires pos <= |toks| && AllWellFormed(toks)
    ensures r.Ok? ==> pos < r.value.1 <= |toks|
    decreases |toks| - pos, 2
  {
    match Factor(toks, pos, row)
    case Err(e) => Err(e)
    case Ok((v, p)) => TermTail(toks, p, v, row)
  }

  function TermTail(toks: seq<Token>, pos: nat, acc: real, row: seq<Value>): (r: Result<(real, nat)>)
    requires pos <= |toks| && AllWellFormed(toks)
    ensures r.Ok? ==> pos <= r.value.1 <= |toks|
    decreases |toks| - pos, 1
  {
    if IsOp(toks, pos, '*') || IsOp(toks, pos, '/') then
      match Factor(toks, pos + 1, row)
      case Err(e) => Err(e)
      case Ok((v, p)) =>
        if IsOp(toks, pos, '*') then TermTail(toks, p, Times(acc, v), row)
        else if v == 0.0 then Err("Divide by zero")
        else TermTail(toks, p, acc / v, row)
    else Ok((acc, pos))
  }

  /** factor := '-' factor | '(' expression ')' | number | reference */
  function Factor(toks: seq<Token>, pos: nat, row: seq<Value>): (r: Result<(real, nat)>)
    requires pos <= |toks| && AllWellFormed(toks)
    ensures r.Ok? ==> pos < r.value.1 <= |toks|
    decreases |toks| - pos, 0
  {
    if IsOp(toks, pos, '-') then
      match Factor(toks, pos + 1, row)
      case Err(e) => Err(e)
      case Ok((v, p)) => Ok((-v, p))
    else if IsOp(toks, pos, '(') then
      match Expression(toks, pos + 1, row)
      case Err(e) => Err(e)
      case Ok((v, p)) => if IsOp(toks, p, ')') then Ok((v, p + 1)) else Err("Missing ')'")
    else if pos < |toks| && toks[pos].TNum? then
      assert WellFormed(toks[pos]);
      Ok((DecimalValue(toks[pos].lit), pos + 1))
    else if pos < |toks| && toks[pos].TRef? then
      match Reference(row, toks[pos].name)
      case Err(e) => Err(e)
      case Ok(v) => Ok((v, pos + 1))
    else Err("Expected value")
  }

  /** A whole token list: an expression with nothing left over. */
  function EvaluateTokens(toks: seq<Token>, row: seq<Value>): Result<real>
    requires AllWellFormed(toks)
  {
    match Expression(toks, 0, row)
    case Err(e) => Err(e)
    case Ok((v, p)) => if p < |toks| then Err("Unexpected token") else Ok(v)
  }

  /** `evaluate_formula_for_row` before normalisation. */
  function Evaluation(formula: string, row: seq<Value>): Result<real> {
    match Lex(formula)
    case Err(e) => Err(e)
    case Ok(toks) => EvaluateTokens(toks, row)
  }

  // ================================================================ numbers

  function Abs(x: real): real { if x < 0.0 then -x else x }

  /** `Float#to_i`: truncation toward zero. */
  function Trunc(x: real): (n: int)
    ensures Abs(x - n as real) < 1.0
    ensures x >= 0.0 ==> 0 <= n
    ensures x < 0.0 ==> n <= 0
  {
    if x >= 0.0 then x.Floor else -((-x).Floor)
  }

  /** Nearest integer, halves away from zero. */
  function RoundHalfAway(x: real): (n: int)
    ensures Abs(x - n as real) <= 0.5
  {
    if x >= 0.0 then (x + 0.5).Floor else -((-x + 0.5).Floor)
  }

  /** `Float#round(6)`, on exact reals. */
  function Round6(x: real): (r: real)
    ensures Abs(r - x) <= 0.0000005
  {
    RoundHalfAway(x * 1000000.0) as real / 1000000.0
  }

  const Tolerance: real := 0.000000001

  /** `normalize_numeric` as written: the integer part is `to_i`, so a value
      just below a positive integer (or just above a negative one) is not
      recognised as integral. */
  function NormalizeAsWritten(v: real): (r: Value)
    ensures r.Int? ==> Abs(v - r.i as real) < Tolerance
    ensures r.Float? ==> Abs(r.r - v) <= 0.0000005
    ensures r.Int? || r.Float?
  {
    var n := Trunc(v);
    if Abs(v - n as real) < Tolerance then Int(n) else Float(Round6(v))
  }

  /** `normalize_numeric` as intended: a result within 1e-9 of an integer is
      that Integer, anything else is rounded to six decimals. */
  function Normalize(v: real): (r: Value)
    ensures r.Int? ==> Abs(v - r.i as real) < Tolerance
    ensures r.Float? ==> Abs(r.r - v) <= 0.0000005
    ensures r.Int? || r.Float?
  {
    var n := RoundHalfAway(v);
    if Abs(v - n as real) < Tolerance then Int(n) else Float(Round6(v))
  }

  /** The value a formula writes into a row: the normalised result, or the
      error that makes the service write nil (or, for `IndexRangeError`,
      abandon the whole call). */
  function FormulaResult(formula: string, row: seq<Value>): Result<Value> {
    match Evaluation(formula, row)
    case Ok(v) => Ok(NormalizeAsWritten(v))
    case Err(e) => Err(e)
  }

  function CellValue(formula: string, row: seq<Value>): Value {
    match FormulaResult(formula, row)
    case Ok(v) => v
    case Err(_) => Nil
  }

  // ================================================================ column specs

  /** `formula.to_s`; Float#to_s is supplied by the caller. `Array#to_s` and
      `Hash#to_s` begin with '[' and '{', the first character the tokenizer
      meets and rejects, so only that character is kept. */
  function FormulaText(v: Value, floatText: real -> string): string {
    match v
    case Nil => ""
    case Bool(b) => if b then "true" else "false"
    case Int(n) => IntToString(n)
    case Float(x) => floatText(x)
    case Str(s) => s
    case Arr(_) => "["
    case Hash(_) => "{"
  }

  /** `parse_index` on the text of a value: a digit string is its value,
      a run of letters is a column name, anything else is nil. */
  function IndexFromText(text: string): (r: Option<int>)
    ensures r.Some? ==> r.value >= 0
  {
    var s := Strip(text);
    if Blank(s) then None
    else if AllDigits(s) then Some(DigitsValue(s))
    else if AllLetters(s) then
      assert s != [];
      LetterIndex(Upcase(s)).ToOption()
    else None
  }

  /** `parse_index`: an Integer as it is, nil as nil, and otherwise the text
      of the value. A Float's text always holds a '.' or an exponent, and an
      Array's or Hash's a bracket, so none of them is an index. */
  function ParseIndex(raw: Value): (r: Option<int>)
    ensures raw.Int? ==> r == Some(raw.i)
    ensures raw.Nil? || raw.Float? || raw.Arr? || raw.Hash? ==> r.None?
    ensures !raw.Int? && r.Some? ==> r.value >= 0
  {
    match raw
    case Int(n) => Some(n)
    case Bool(b) => IndexFromText(if b then "true" else "false")
    case Str(s) => IndexFromText(s)
    case _ => None
  }

  /** One entry of `computed_columns`, before the duplicate check. */
  function ColumnSpec(entry: Value, schemaSize: int, floatText: real -> string): (r: Option<Column>)
    ensures r.Some? ==> r.value.index < schemaSize
    ensures r.Some? ==> !Blank(r.value.formula)
  {
    if !entry.Hash? then None
    else
      var formula := Strip(FormulaText(ReadKey(entry.entries, "formula"), floatText));
      if Blank(formula) then None
      else
        var first := ParseIndex(ReadKey(entry.entries, "index"));
        var index := if first.None? then ParseIndex(ReadKey(entry.entries, "column")) else first;
        if index.None? || index.value < 0 || index.value >= schemaSize then None
        else Some(Column(index.value, formula))
  }

  function Indexes(cols: seq<Column>): set<nat> {
    set k | 0 <= k < |cols| :: cols[k].index
  }

  predicate DistinctIndexes(cols: seq<Column>) {
    forall i, j :: 0 <= i < j < |cols| ==> cols[i].index != cols[j].index
  }

  /** The filter over the entries; `seen` holds the indexes already taken. */
  function CollectColumns(entries: seq<Value>, schemaSize: int, seen: set<nat>, floatText: real -> string): (r: seq<Column>)
    ensures DistinctIndexes(r)
    ensures forall k :: 0 <= k < |r| ==> r[k].index !in seen && r[k].index < schemaSize
    ensures forall k :: 0 <= k < |r| ==> !Blank(r[k].formula)
  {
    if entries == [] then []
    else
      match ColumnSpec(entries[0], schemaSize, floatText)
      case None => CollectColumns(entries[1..], schemaSize, seen, floatText)
      case Some(c) =>
        if c.index in seen then CollectColumns(entries[1..], schemaSize, seen, floatText)
        else
          var rest := CollectColumns(entries[1..], schemaSize, seen + {c.index}, floatText);
          ConsFresh(c, rest, seen, schemaSize);
          [c] + rest
  }

  /** A new spec in front of the later ones keeps the indexes distinct. */
  lemma ConsFresh(c: Column, rest: seq<Column>, seen: set<nat>, schemaSize: int)
    requires c.index !in seen && c.index < schemaSize && !Blank(c.formula)
    requires DistinctIndexes(rest)
    requires forall k :: 0 <= k < |rest| ==> rest[k].index !in seen + {c.index} && rest[k].index < schemaSize
    requires forall k :: 0 <= k < |rest| ==> !Blank(rest[k].formula)
    ensures DistinctIndexes([c] + rest)
    ensures forall k :: 0 <= k < |[c] + rest| ==> ([c] + rest)[k].index !in seen && ([c] + rest)[k].index < schemaSize
    ensures forall k :: 0 <= k < |[c] + rest| ==> !Blank(([c] + rest)[k].formula)
  {
    var r := [c] + rest;
    forall i, j | 0 <= i < j < |r| ensures r[i].index != r[j].index {
      assert r[j] == rest[j - 1];
      if i > 0 {
        assert r[i] == rest[i - 1];
      }
    }
    forall k | 0 < k < |r| ensures r[k] == rest[k - 1] {
    }
  }

  /** `normalized_computed_columns`: needs an Array of specs and a non-empty
      schema; keeps, in order, the first valid spec for each index. */
  function NormalizedComputedColumns(dataset: seq<(Key, Value)>, schemaSize: int, floatText: real -> string): (r: seq<Column>)
    ensures DistinctIndexes(r)
    ensures forall k :: 0 <= k < |r| ==> r[k].index < schemaSize && !Blank(r[k].formula)
  {
    var raw := ReadKey(dataset, "computed_columns");
    if !raw.Arr? || schemaSize <= 0 then [] else CollectColumns(raw.items, schemaSize, {}, floatText)
  }

  // ================================================================ application

  /** The computed columns applied in order to one row; each formula sees the
      cells written before it. */
  function ColumnsApplied(cols: seq<Column>, row: seq<Value>): seq<Value>
    decreases |cols|
  {
    if cols == [] then row
    else ColumnsApplied(cols[1..], SetCell(row, cols[0].index, CellValue(cols[0].formula, row)))
  }

  /** A row that is not an Array is skipped. */
  function RowApplied(cols: seq<Column>, row: Value): Value {
    if row.Arr? then Arr(ColumnsApplied(cols, row.items)) else row
  }

  function RowsApplied(cols: seq<Column>, rows: seq<Value>): (r: seq<Value>)
    ensures |r| == |rows|
  {
    seq(|rows|, k requires 0 <= k < |rows| => RowApplied(cols, rows[k]))
  }

  /** Some formula, evaluated on the row as the earlier columns left it,
      raises the RangeError that the per-cell rescue lets through. */
  predicate ColumnsRaise(cols: seq<Column>, row: seq<Value>)
    decreases |cols|
  {
    cols != [] &&
    (FormulaResult(cols[0].formula, row) == Err(IndexRangeError) ||
     ColumnsRaise(cols[1..], SetCell(row, cols[0].index, CellValue(cols[0].formula, row))))
  }

  predicate RowRaises(cols: seq<Column>, row: Value) {
    row.Arr? && ColumnsRaise(cols, row.items)
  }

  predicate RowsRaise(cols: seq<Column>, rows: seq<Value>) {
    exists k :: 0 <= k < |rows| && RowRaises(cols, rows[k])
  }

  /** The key `read_key` found the value under, so the update lands there. */
  function KeyUsed(entries: seq<(Key, Value)>, name: string): Key {
    if Truthy(Get(entries, StrKey(name)).GetOr(Nil)) then StrKey(name) else SymKey(name)
  }

  /** `apply_dataset!`: needs `rows` and `schema` Arrays and at least one
      computed column; otherwise the dataset is left as it is. */
  function DatasetApplied(dataset: seq<(Key, Value)>, floatText: real -> string): (r: seq<(Key, Value)>)
    ensures forall k: Key :: k.name != "rows" ==> Get(r, k) == Get(dataset, k)
  {
    var rows := ReadKey(dataset, "rows");
    var schema := ReadKey(dataset, "schema");
    if !(rows.Arr? && schema.Arr?) then dataset
    else
      var cols := NormalizedComputedColumns(dataset, |schema.items|, floatText);
      if cols == [] then dataset
      else HashSet(dataset, KeyUsed(dataset, "rows"), Arr(RowsApplied(cols, rows.items)))
  }

  function DatasetValueApplied(d: Value, floatText: real -> string): Value {
    if d.Hash? then Hash(DatasetApplied(d.entries, floatText)) else d
  }

  /** `apply_dataset!` on this dataset raises the RangeError: it has rows,
      a schema and computed columns, and one of its rows raises. */
  predicate DatasetRaises(d: Value, floatText: real -> string) {
    d.Hash? &&
    var rows := ReadKey(d.entries, "rows");
    var schema := ReadKey(d.entries, "schema");
    rows.Arr? && schema.Arr? &&
    RowsRaise(NormalizedComputedColumns(d.entries, |schema.items|, floatText), rows.items)
  }

  predicate AnyDatasetRaises(items: seq<Value>, floatText: real -> string) {
    exists k :: 0 <= k < |items| && DatasetRaises(items[k], floatText)
  }

  /** `ComputedCells#call`: anything but a Hash is returned as it is; a Hash
      is deep-copied and every Hash dataset of its `datasets` Array applied.
      When some formula raises the RangeError, `rescue => e` returns the
      input itself, with no column applied anywhere. */
  function Applied(input: Value, floatText: real -> string): (r: Value)
    ensures !input.Hash? ==> r == input
    ensures input.Hash? ==> r.Hash?
  {
    if !input.Hash? then input
    else
      var copy := DeepCopy(input);
      var datasets := ReadKey(copy.entries, "datasets");
      if !datasets.Arr? then copy
      else if AnyDatasetRaises(datasets.items, floatText) then input
      else
        Hash(HashSet(copy.entries, KeyUsed(copy.entries, "datasets"),
          Arr(seq(|datasets.items|, k requires 0 <= k < |datasets.items| =>
            DatasetValueApplied(datasets.items[k], floatText)))))
  }

  // ================================================================ the service

  predicate Agrees(r: Result<real>, spec: Result<(real, nat)>, index: nat) {
    match spec
    case Ok((v, p)) => r == Ok(v) && index == p
    case Err(e) => r == Err(e)
  }

  class ComputedCells {
    const datasetJson: Value
    /** `Float#to_s`, which the model does not define. */
    const floatText: real -> string
    var tokens: seq<Token>
    var tokenIndex: nat
    var row: seq<Value>

    constructor (datasetJson: Value, floatText: real -> string)
      ensures this.datasetJson == datasetJson && this.floatText == floatText
      ensures tokens == [] && tokenIndex == 0 && row == []
    {
      this.datasetJson := datasetJson;
      this.floatText := floatText;
      tokens := [];
      tokenIndex := 0;
      row := [];
    }

    method Call() returns (r: Value)
      modifies this`tokens, this`tokenIndex, this`row
      ensures r == Applied(datasetJson, floatText)
    {
      if !datasetJson.Hash? {
        return datasetJson;
      }
      var duplicated := DeepCopy(datasetJson);
      var datasets := ReadKey(duplicated.entries, "datasets");
      if !datasets.Arr? {
        return duplicated;
      }
      var items, raised := ApplyDatasets(datasets.items);
      if raised {
        // `rescue => e` in `call`
        return datasetJson;
      }
      assert items == seq(|datasets.items|, k requires 0 <= k < |datasets.items| =>
        DatasetValueApplied(datasets.items[k], floatText));
      return Hash(HashSet(duplicated.entries, KeyUsed(duplicated.entries, "datasets"), Arr(items)));
    }

    /** `datasets.each`: every Hash dataset in turn; other entries are kept. */
    /** `datasets.each`: every Hash dataset in turn; other entries are kept.
        `raised` tells that a dataset raised the RangeError, which ends the
        loop. */
    method ApplyDatasets(items0: seq<Value>) returns (items: seq<Value>, raised: bool)
      modifies this`tokens, this`tokenIndex, this`row
      ensures raised == AnyDatasetRaises(items0, floatText)
      ensures !raised ==> |items| == |items0|
      ensures !raised ==> forall k :: 0 <= k < |items0| ==> items[k] == DatasetValueApplied(items0[k], floatText)
    {
      items := items0;
      var i := 0;
      while i < |items|
        invariant 0 <= i <= |items| == |items0|
        invariant forall k :: 0 <= k < i ==> items[k] == DatasetValueApplied(items0[k], floatText)
        invariant forall k :: 0 <= k < i ==> !DatasetRaises(items0[k], floatText)
        invariant forall k :: i <= k < |items| ==> items[k] == items0[k]
      {
        if items[i].Hash? {
          var applied, r := ApplyDataset(items[i].entries);
          if r {
            assert DatasetRaises(items0[i], floatText);
            return items, true;
          }
          items := items[i := Hash(applied)];
        } else {
          assert !DatasetRaises(items0[i], floatText);
        }
        i := i + 1;
      }
      assert !AnyDatasetRaises(items0, floatText);
      return items, false;
    }

    method ApplyDataset(dataset: seq<(Key, Value)>) returns (r: seq<(Key, Value)>, raised: bool)
      modifies this`tokens, this`tokenIndex, this`row
      ensures raised == DatasetRaises(Hash(dataset), floatText)
      ensures !raised ==> r == DatasetApplied(dataset, floatText)
    {
      var rowsValue := ReadKey(dataset, "rows");
      var schema := ReadKey(dataset, "schema");
      if !(rowsValue.Arr? && schema.Arr?) {
        return dataset, false;
      }
      var columns := NormalizedComputedColumns(dataset, |schema.items|, floatText);
      if columns == [] {
        NoColumnsNoRaise(rowsValue.items);
        return dataset, false;
      }
      var rows;
      rows, raised := ApplyRows(columns, rowsValue.items);
      return HashSet(dataset, KeyUsed(dataset, "rows"), Arr(rows)), raised;
    }

    /** `rows.each`: every Array row in turn; other rows are skipped. A row
        that raises the RangeError ends the loop. */
    method ApplyRows(columns: seq<Column>, rows0: seq<Value>) returns (rows: seq<Value>, raised: bool)
      modifies this`tokens, this`tokenIndex, this`row
      ensures raised == RowsRaise(columns, rows0)
      ensures !raised ==> rows == RowsApplied(columns, rows0)
    {
      rows := rows0;
      var i := 0;
      while i < |rows|
        invariant 0 <= i <= |rows| == |rows0|
        invariant forall k :: 0 <= k < i ==> rows[k] == RowApplied(columns, rows0[k])
        invariant forall k :: 0 <= k < i ==> !RowRaises(columns, rows0[k])
        invariant forall k :: i <= k < |rows| ==> rows[k] == rows0[k]
      {
        if rows[i].Arr? {
          var cells, r := ApplyColumns(columns, rows[i].items);
          if r {
            return rows, true;
          }
          rows := rows[i := Arr(cells)];
        }
        i := i + 1;
      }
      return rows, false;
    }

    /** The body of `rows.each`: the columns in order, each cell written as
        soon as it is computed. A ParseError or NonNumericReference writes
        nil; the RangeError is not rescued and leaves the loop. */
    method ApplyColumns(columns: seq<Column>, cells0: seq<Value>) returns (cells: seq<Value>, raised: bool)
      modifies this`tokens, this`tokenIndex, this`row
      ensures raised == ColumnsRaise(columns, cells0)
      ensures !raised ==> cells == ColumnsApplied(columns, cells0)
    {
      cells := cells0;
      var c := 0;
      while c < |columns|
        invariant 0 <= c <= |columns|
        invariant ColumnsApplied(columns[c..], cells) == ColumnsApplied(columns, cells0)
        invariant ColumnsRaise(columns[c..], cells) == ColumnsRaise(columns, cells0)
      {
        var value := EvaluateFormulaForRow(columns[c].formula, cells);
        assert columns[c..][1..] == columns[c + 1..];
        if value == Err(IndexRangeError) {
          return cells, true;
        }
        cells := SetCell(cells, columns[c].index, if value.Ok? then value.value else Nil);
        c := c + 1;
      }
      return cells, false;
    }

    method EvaluateFormulaForRow(formula: string, cells: seq<Value>) returns (r: Result<Value>)
      modifies this`tokens, this`tokenIndex, this`row
      ensures r == FormulaResult(formula, cells)
      ensures tokens == [] && tokenIndex == 0 && row == []
    {
      var lexed := Tokenize(formula);
      if lexed.Err? {
        tokens, tokenIndex, row := [], 0, [];
        return Err(lexed.error);
      }
      tokens, tokenIndex, row := lexed.value, 0, cells;
      var value := ParseExpression();
      if value.Err? {
        tokens, tokenIndex, row := [], 0, [];
        return Err(value.error);
      }
      if tokenIndex < |tokens| {
        tokens, tokenIndex, row := [], 0, [];
        return Err("Unexpected token");
      }
      tokens, tokenIndex, row := [], 0, [];
      return Ok(NormalizeAsWritten(value.value));
    }

    method ParseExpression() returns (r: Result<real>)
      requires tokenIndex <= |tokens| && AllWellFormed(tokens)
      modifies this`tokenIndex
      ensures Agrees(r, Expression(tokens, old(tokenIndex), row), tokenIndex)
      decreases |tokens| - tokenIndex, 3
    {
      var first := ParseTerm();
      if first.Err? {
        return first;
      }
      var value := first.value;
      while IsOp(tokens, tokenIndex, '+') || IsOp(tokens, tokenIndex, '-')
        invariant old(tokenIndex) < tokenIndex <= |tokens|
        invariant ExpressionTail(tokens, tokenIndex, value, row) == Expression(tokens, old(tokenIndex), row)
        decreases |tokens| - tokenIndex
      {
        var plus := IsOp(tokens, tokenIndex, '+');
        tokenIndex := tokenIndex + 1;
        var rhs := ParseTerm();
        if rhs.Err? {
          return rhs;
        }
        value := SumStep(plus, value, rhs.value);
      }
      return Ok(value);
    }

    method ParseTerm() returns (r: Result<real>)
      requires tokenIndex <= |tokens| && AllWellFormed(tokens)
      modifies this`tokenIndex
      ensures Agrees(r, Term(tokens, old(tokenIndex), row), tokenIndex)
      decreases |tokens| - tokenIndex, 2
    {
      var first := ParseFactor();
      if first.Err? {
        return first;
      }
      var value := first.value;
      while IsOp(tokens, tokenIndex, '*') || IsOp(tokens, tokenIndex, '/')
        invariant old(tokenIndex) < tokenIndex <= |tokens|
        invariant TermTail(tokens, tokenIndex, value, row) == Term(tokens, old(tokenIndex), row)
        decreases |tokens| - tokenIndex
      {
        var times := IsOp(tokens, tokenIndex, '*');
        tokenIndex := tokenIndex + 1;
        var rhs := ParseFactor();
        if rhs.Err? {
          return rhs;
        }
        if times {
          value := Times(value, rhs.value);
        } else {
          if rhs.value == 0.0 {
            return Err("Divide by zero");
          }
          value := value / rhs.value;
        }
      }
      return Ok(value);
    }

    method ParseFactor() returns (r: Result<real>)
      requires tokenIndex <= |tokens| && AllWellFormed(tokens)
      modifies this`tokenIndex
      ensures Agrees(r, Factor(tokens, old(tokenIndex), row), tokenIndex)
      decreases |tokens| - tokenIndex, 0
    {
      if IsOp(tokens, tokenIndex, '-') {
        tokenIndex := tokenIndex + 1;
        var inner := ParseFactor();
        if inner.Err? {
          return inner;
        }
        return Ok(-inner.value);
      }
      if IsOp(tokens, tokenIndex, '(') {
        tokenIndex := tokenIndex + 1;
        var inner := ParseExpression();
        if inner.Err? {
          return inner;
        }
        if !IsOp(tokens, tokenIndex, ')') {
          return Err("Missing ')'");
        }
        tokenIndex := tokenIndex + 1;
        return inner;
      }
      if tokenIndex < |tokens| && tokens[tokenIndex].TNum? {
        assert WellFormed(tokens[tokenIndex]);
        var value := DecimalValue(tokens[tokenIndex].lit);
        tokenIndex := tokenIndex + 1;
        return Ok(value);
      }
      if tokenIndex < |tokens| && tokens[tokenIndex].TRef? {
        var name := tokens[tokenIndex].name;
        tokenIndex := tokenIndex + 1;
        r := ReferenceValue(name);
        return;
      }
      return Err("Expected value");
    }

    method ReferenceValue(name: string) returns (r: Result<real>)
      ensures r == Reference(row, name)
    {
      var index := LettersToIndex(name);
      if index.Err? {
        return Err(index.error);
      }
      if index.value >= 0x8000_0000_0000_0000 {
        return Err(IndexRangeError);
      }
      var num := CoerceNumeric(Cell(row, index.value));
      if num.None? {
        return Err("Non-numeric reference");
      }
      return Ok(num.value);
    }
  }

  /** `ComputedCells.apply`. */
  method Apply(datasetJson: Value, floatText: real -> string) returns (r: Value)
    ensures r == Applied(datasetJson, floatText)
  {
    var service := new ComputedCells(datasetJson, floatText);
    r := service.Call();
  }

  /** `tokenize`: the character loop of the source, proved to produce `Lex`. */
  method Tokenize(formula: string) returns (r: Result<seq<Token>>)
    ensures r == Lex(formula)
  {
    var tokens: seq<Token> := [];
    var i := 0;
    assert formula[0..] == formula;
    PrependAssoc([], [], Lex(formula));
    while i < |formula|
      invariant 0 <= i <= |formula|
      invariant Lex(formula) == Prepend(tokens, Lex(formula[i..]))
    {
      var ch := formula[i];
      if IsRegexSpace(ch) {
        LexSpaceAt(formula, i);
        i := i + 1;
        continue;
      }
      if IsNumberChar(ch) {
        var j := NumberRunEnd(formula, i);
        LexNumberRunAt(formula, i, j);
        var literal := formula[i..j];
        if !IsDecimal(literal) {
          return Err("Invalid number");
        }
        PrependAssoc(tokens, [TNum(literal)], Lex(formula[j..]));
        tokens := tokens + [TNum(literal)];
        i := j;
        continue;
      }
      if IsLetter(ch) {
        var j := LetterRunEnd(formula, i);
        LexLetterRunAt(formula, i, j);
        PrependAssoc(tokens, [TRef(Upcase(formula[i..j]))], Lex(formula[j..]));
        tokens := tokens + [TRef(Upcase(formula[i..j]))];
        i := j;
        continue;
      }
      if IsOpChar(ch) {
        LexSpaceAt(formula, i);
        PrependAssoc(tokens, [TOp(ch)], Lex(formula[i + 1..]));
        tokens := tokens + [TOp(ch)];
        i := i + 1;
        continue;
      }
      LexSpaceAt(formula, i);
      return Err("Invalid token");
    }
    assert formula[i..] == [];
    assert Lex(formula[i..]) == Ok([]);
    assert tokens + [] == tokens;
    return Ok(tokens);
  }

  /** The end of the run of number characters that starts at `i`. */
  method NumberRunEnd(formula: string, i: nat) returns (j: nat)
    requires i < |formula| && IsNumberChar(formula[i])
    ensures i < j <= |formula|
    ensures forall k :: i <= k < j ==> IsNumberChar(formula[k])
    ensures j < |formula| ==> !IsNumberChar(formula[j])
  {
    j := i + 1;
    while j < |formula| && IsNumberChar(formula[j])
      invariant i < j <= |formula|
      invariant forall k :: i <= k < j ==> IsNumberChar(formula[k])
    {
      j := j + 1;
    }
  }

  /** The end of the run of letters that starts at `i`. */
  method LetterRunEnd(formula: string, i: nat) returns (j: nat)
    requires i < |formula| && IsLetter(formula[i])
    ensures i < j <= |formula|
    ensures forall k :: i <= k < j ==> IsLetter(formula[k])
    ensures j < |formula| ==> !IsLetter(formula[j])
  {
    j := i + 1;
    while j < |formula| && IsLetter(formula[j])
      invariant i < j <= |formula|
      invariant forall k :: i <= k < j ==> IsLetter(formula[k])
    {
      j := j + 1;
    }
  }

  /** Without computed columns no row can raise. */
  lemma NoColumnsNoRaise(rows: seq<Value>)
    ensures !RowsRaise([], rows)
  {
  }

  lemma PrependAssoc(a: seq<Token>, b: seq<Token>, r: Result<seq<Token>>)
    ensures Prepend(a, Prepend(b, r)) == Prepend(a + b, r)
    ensures Prepend([], r) == r
    ensures r.Ok? ==> Prepend(a, r) == Ok(a + r.value)
  {
    if r.Ok? {
      assert a + (b + r.value) == (a + b) + r.value;
      assert [] + r.value == r.value;
    }
  }

  /** One step of `Lex` at a single-character token or a blank. */
  lemma LexSpaceAt(formula: string, i: nat)
    requires i < |formula|
    ensures IsRegexSpace(formula[i]) ==> Lex(formula[i..]) == Lex(formula[i + 1..])
    ensures !IsRegexSpace(formula[i]) && !IsNumberChar(formula[i]) && !IsLetter(formula[i]) && IsOpChar(formula[i])
      ==> Lex(formula[i..]) == Prepend([TOp(formula[i])], Lex(formula[i + 1..]))
    ensures !IsRegexSpace(formula[i]) && !IsNumberChar(formula[i]) && !IsLetter(formula[i]) && !IsOpChar(formula[i])
      ==> Lex(formula[i..]) == Err("Invalid token")
  {
    assert formula[i..][1..] == formula[i + 1..];
  }

  /** One step of `Lex` at a run of number characters. */
  lemma LexNumberRunAt(formula: string, i: nat, j: nat)
    requires i < j <= |formula|
    requires forall k :: i <= k < j ==> IsNumberChar(formula[k])
    requires j < |formula| ==> !IsNumberChar(formula[j])
    ensures Lex(formula[i..]) ==
      if IsDecimal(formula[i..j]) then Prepend([TNum(formula[i..j])], Lex(formula[j..])) else Err("Invalid number")
  {
    var s := formula[i..];
    SpanIs(s, IsNumberChar, j - i);
    assert s[..j - i] == formula[i..j];
    assert s[j - i..] == formula[j..];
    assert !IsRegexSpace(s[0]);
  }

  /** One step of `Lex` at a run of letters. */
  lemma LexLetterRunAt(formula: string, i: nat, j: nat)
    requires i < j <= |formula|
    requires forall k :: i <= k < j ==> IsLetter(formula[k])
    requires j < |formula| ==> !IsLetter(formula[j])
    ensures Lex(formula[i..]) == Prepend([TRef(Upcase(formula[i..j]))], Lex(formula[j..]))
  {
    var s := formula[i..];
    SpanIs(s, IsLetter, j - i);
    assert s[..j - i] == formula[i..j];
    assert s[j - i..] == formula[j..];
    assert !IsRegexSpace(s[0]) && !IsNumberChar(s[0]);
  }
}
