/** Expression trees of the restricted language, and the grammar as a function on token lists
    (packages/model-option-map/src/parser.ts).  Offsets inside trees are left out. */
module Expressions {
  import opened Numerals
  import opened Tokenizer

  datatype Expr =
    | StringLit(s: string)
    | NumberLit(text: string)
    | BoolLit(b: bool)
    | NullLit
    | Input
    | ArrayLit(elements: seq<Expr>)
    | ObjectLit(entries: seq<Entry>)
    | Unary(op: string, operand: Expr)
    | Binary(op: string, left: Expr, right: Expr)
    | Conditional(condition: Expr, whenTrue: Expr, whenFalse: Expr)

  datatype Entry = Entry(key: string, value: Expr)

  /** The option a map is written for: the one identifier an expression may use. */
  datatype OptionName = ReasoningLevel | MaxOutputTokens

  function NameOf(o: OptionName): string {
    match o
    case ReasoningLevel => "reasoningLevel"
    case MaxOutputTokens => "maxOutputTokens"
  }

  datatype ParseResult = Parsed(expr: Expr, next: nat) | Rejected(offset: nat)

  // Precedence levels: 0 conditional, 1 to 6 the binary operators, 7 unary, 8 primary.

  function Operators(level: nat): set<string> {
    if level == 1 then {"||"}
    else if level == 2 then {"&&"}
    else if level == 3 then {"==", "!="}
    else if level == 4 then {"<", "<=", ">", ">="}
    else if level == 5 then {"+", "-"}
    else if level == 6 then {"*", "/", "%"}
    else {}
  }

  const UNARY_OPERATORS := {"!", "-", "+"}

  function Current(ts: seq<Token>, i: nat): Token
    requires ts != []
  {
    if i < |ts| then ts[i] else ts[|ts| - 1]
  }

  predicate SafeNumber(text: string) {
    IsNumber(text) && JsonSafe(ValueOf(text))
  }

  /** Parses one expression of at least the given level, from token i on. */
  function Parse(ts: seq<Token>, name: string, level: nat, i: nat): (r: ParseResult)
    requires TokenList(ts) && i < |ts| && level <= 8
    ensures r.Parsed? ==> i < r.next < |ts|
    decreases |ts| - i, 9 - level, 0
  {
    if level == 0 then
      match Parse(ts, name, 1, i)
      case Rejected(at) => Rejected(at)
      case Parsed(condition, j) =>
        if ts[j].value != "?" then Parsed(condition, j)
        else
          match Parse(ts, name, 0, j + 1)
          case Rejected(at) => Rejected(at)
          case Parsed(whenTrue, k) =>
            if ts[k].value != ":" then Rejected(ts[k].offset)
            else
              match Parse(ts, name, 0, k + 1)
              case Rejected(at) => Rejected(at)
              case Parsed(whenFalse, n) => Parsed(Conditional(condition, whenTrue, whenFalse), n)
    else if level <= 6 then
      match Parse(ts, name, level + 1, i)
      case Rejected(at) => Rejected(at)
      case Parsed(left, j) => ParseTail(ts, name, level, left, j)
    else if level == 7 then
      if ts[i].kind == Operator && ts[i].value in UNARY_OPERATORS then
        match Parse(ts, name, 7, i + 1)
        case Rejected(at) => Rejected(at)
        case Parsed(operand, j) => Parsed(Unary(ts[i].value, operand), j)
      else Parse(ts, name, 8, i)
    else ParsePrimary(ts, name, i)
  }

  /** The loop of parseBinary: `left` has been read, more operators of the level may follow. */
  function ParseTail(ts: seq<Token>, name: string, level: nat, left: Expr, i: nat): (r: ParseResult)
    requires TokenList(ts) && i < |ts| && 1 <= level <= 6
    ensures r.Parsed? ==> i <= r.next < |ts|
    decreases |ts| - i, 9 - level, 1
  {
    if ts[i].kind == Operator && ts[i].value in Operators(level) then
      match Parse(ts, name, level + 1, i + 1)
      case Rejected(at) => Rejected(at)
      case Parsed(right, j) => ParseTail(ts, name, level, Binary(ts[i].value, left, right), j)
    else Parsed(left, i)
  }

  function ParsePrimary(ts: seq<Token>, name: string, i: nat): (r: ParseResult)
    requires TokenList(ts) && i < |ts|
    ensures r.Parsed? ==> i < r.next < |ts|
    decreases |ts| - i, 0, 0
  {
    var token := ts[i];
    if token.kind == NumberLiteral then
      if SafeNumber(token.value) then Parsed(NumberLit(token.value), i + 1) else Rejected(token.offset)
    else if token.kind == StringLiteral then Parsed(StringLit(token.value), i + 1)
    else if token.kind == Identifier then
      if ts[i + 1].value == "(" then Rejected(ts[i + 1].offset)
      else if token.value == name then Parsed(Input, i + 1)
      else if token.value == "true" || token.value == "false" then Parsed(BoolLit(token.value == "true"), i + 1)
      else if token.value == "null" then Parsed(NullLit, i + 1)
      else Rejected(token.offset)
    else if token.value == "(" then
      match Parse(ts, name, 0, i + 1)
      case Rejected(at) => Rejected(at)
      case Parsed(e, j) => if ts[j].value == ")" then Parsed(e, j + 1) else Rejected(ts[j].offset)
    else if token.value == "[" then
      if ts[i + 1].value == "]" then Parsed(ArrayLit([]), i + 2) else ParseElements(ts, name, [], i + 1)
    else if token.value == "{" then
      if ts[i + 1].value == "}" then Parsed(ObjectLit([]), i + 2) else ParseEntries(ts, name, [], i + 1)
    else Rejected(token.offset)
  }

  function ParseElements(ts: seq<Token>, name: string, before: seq<Expr>, i: nat): (r: ParseResult)
    requires TokenList(ts) && i < |ts|
    ensures r.Parsed? ==> i < r.next < |ts|
    decreases |ts| - i, 10, 0
  {
    match Parse(ts, name, 0, i)
    case Rejected(at) => Rejected(at)
    case Parsed(e, j) =>
      if ts[j].value == "," then ParseElements(ts, name, before + [e], j + 1)
      else if ts[j].value == "]" then Parsed(ArrayLit(before + [e]), j + 1)
      else Rejected(ts[j].offset)
  }

  predicate HasKey(entries: seq<Entry>, key: string) {
    exists k :: 0 <= k < |entries| && entries[k].key == key
  }

  function ParseEntries(ts: seq<Token>, name: string, before: seq<Entry>, i: nat): (r: ParseResult)
    requires TokenList(ts) && i < |ts|
    ensures r.Parsed? ==> i < r.next < |ts|
    decreases |ts| - i, 10, 0
  {
    var key := ts[i];
    if key.kind != StringLiteral || HasKey(before, key.value) then Rejected(key.offset)
    else if ts[i + 1].value != ":" then Rejected(ts[i + 1].offset)
    else
      match Parse(ts, name, 0, i + 2)
      case Rejected(at) => Rejected(at)
      case Parsed(value, j) =>
        if ts[j].value == "," then ParseEntries(ts, name, before + [Entry(key.value, value)], j + 1)
        else if ts[j].value == "}" then Parsed(ObjectLit(before + [Entry(key.value, value)]), j + 1)
        else Rejected(ts[j].offset)
  }

  datatype SourceResult = Ok(expr: Expr) | Error(offset: nat)

  /** parse(): one expression and nothing behind it. */
  function ParseTokens(ts: seq<Token>, name: string): SourceResult
    requires TokenList(ts)
  {
    match Parse(ts, name, 0, 0)
    case Rejected(at) => Error(at)
    case Parsed(e, j) => if ts[j].kind == Eof then Ok(e) else Error(ts[j].offset)
  }

  /** parseRestrictedCel(tokenizeRestrictedCel(source), option). */
  function ParseSource(source: string, option: OptionName): SourceResult {
    match Tokenize(source)
    case LexError(at) => Error(at)
    case Lexed(tokens) =>
      TokenizedIsTokenList(source, 0);
      ParseTokens(tokens, NameOf(option))
  }
}
