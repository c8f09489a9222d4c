/** Printing expressions: which trees have a text at all, and the tokens of that text
    (packages/model-option-map/src/parser.ts, packages/model-option-map/src/tokenizer.ts). */
module Printing {
  import opened Tokenizer
  import opened Expressions

  function LevelOfOperator(op: string): nat {
    if op in Operators(1) then 1
    else if op in Operators(2) then 2
    else if op in Operators(3) then 3
    else if op in Operators(4) then 4
    else if op in Operators(5) then 5
    else 6
  }

  function LevelOf(e: Expr): nat {
    match e
    case Conditional(_, _, _) => 0
    case Binary(op, _, _) => LevelOfOperator(op)
    case Unary(_, _) => 7
    case _ => 8
  }

  ghost predicate DistinctKeys(entries: seq<Entry>) {
    forall i, j :: 0 <= i < j < |entries| ==> entries[i].key != entries[j].key
  }

  /** The trees that have a source text. */
  ghost predicate Expressible(e: Expr) {
    match e
    case NumberLit(text) => SafeNumber(text)
    case ArrayLit(elements) => forall k :: 0 <= k < |elements| ==> Expressible(elements[k])
    case ObjectLit(entries) =>
      && DistinctKeys(entries)
      && (entries != [] ==> entries[0].key != "}")
      && forall k :: 0 <= k < |entries| ==> Expressible(entries[k].value)
    case Unary(op, operand) => op in UNARY_OPERATORS && Expressible(operand)
    case Binary(op, left, right) => op in Operators(LevelOfOperator(op)) && Expressible(left) && Expressible(right)
    case Conditional(c, t, f) => Expressible(c) && Expressible(t) && Expressible(f)
    case _ => true
  }

  // ---------- printing ----------

  function Sign(value: string): Lexeme {
    Lexeme(Punctuation, value)
  }

  /** Parentheses where the tree is of a lower level than the place requires; level 9 forces them. */
  function Print(e: Expr, name: string, level: nat): (r: seq<Lexeme>)
    ensures r != []
    decreases e, 1
  {
    if LevelOf(e) < level then [Sign("(")] + PrintBare(e, name) + [Sign(")")] else PrintBare(e, name)
  }

  function PrintBare(e: Expr, name: string): (r: seq<Lexeme>)
    ensures r != []
    decreases e, 0
  {
    match e
    case StringLit(s) => [Lexeme(StringLiteral, s)]
    case NumberLit(text) => [Lexeme(NumberLiteral, text)]
    case BoolLit(b) => [Lexeme(Identifier, if b then "true" else "false")]
    case NullLit => [Lexeme(Identifier, "null")]
    case Input => [Lexeme(Identifier, name)]
    case ArrayLit(elements) =>
      [Sign("[")] + (if elements == [] then [] else PrintElements(elements, name, LeadLevel(elements[0], name))) + [Sign("]")]
    case ObjectLit(entries) =>
      [Sign("{")] + (if entries == [] then [] else PrintEntries(entries, name)) + [Sign("}")]
    case Unary(op, operand) => [Lexeme(Operator, op)] + Print(operand, name, 7)
    case Binary(op, left, right) =>
      Print(left, name, LevelOfOperator(op)) + [Lexeme(Operator, op)] + Print(right, name, LevelOfOperator(op) + 1)
    case Conditional(c, t, f) =>
      Print(c, name, 1) + [Sign("?")] + Print(t, name, 0) + [Sign(":")] + Print(f, name, 0)
  }

  /** The first element of an array goes into parentheses when it begins with the string "]", which the
      parser would take for the closing bracket. */
  function LeadLevel(e: Expr, name: string): nat
    decreases e, 2
  {
    if Print(e, name, 0)[0].value == "]" then 9 else 0
  }

  function PrintElements(elements: seq<Expr>, name: string, lead: nat): (r: seq<Lexeme>)
    requires elements != []
    ensures r != []
    decreases elements, 2
  {
    Print(elements[0], name, lead)
    + if |elements| == 1 then [] else [Sign(",")] + PrintElements(elements[1..], name, 0)
  }

  function PrintEntries(entries: seq<Entry>, name: string): (r: seq<Lexeme>)
    requires entries != []
    ensures r != []
    decreases entries, 2
  {
    [Lexeme(StringLiteral, entries[0].key), Sign(":")] + Print(entries[0].value, name, 0)
    + if |entries| == 1 then [] else [Sign(",")] + PrintEntries(entries[1..], name)
  }

  /** A source text for the tree. */
  function Source(e: Expr, option: OptionName): string {
    Spell(Print(e, NameOf(option), 0))
  }

  // ---------- printed lexemes can be spelled ----------

  ghost predicate AllSpellable(ls: seq<Lexeme>) {
    forall k :: 0 <= k < |ls| ==> Spellable(ls[k])
  }

  lemma SpellableJoin(a: seq<Lexeme>, b: seq<Lexeme>)
    requires AllSpellable(a) && AllSpellable(b)
    ensures AllSpellable(a + b)
  {
  }

  lemma {:induction false} PrintIsSpellable(e: Expr, option: OptionName, level: nat)
    requires Expressible(e)
    ensures AllSpellable(Print(e, NameOf(option), level))
    decreases e, 1
  {
    hide PrintBare, Expressible;
    PrintBareIsSpellable(e, option);
  }

  lemma {:induction false} PrintBareIsSpellable(e: Expr, option: OptionName)
    requires Expressible(e)
    ensures AllSpellable(PrintBare(e, NameOf(option)))
    decreases e, 0
  {
    hide Print, AllSpellable, PrintElements, PrintEntries, LeadLevel;
    var name := NameOf(option);
    match e
    case ArrayLit(elements) =>
      if elements != [] {
        ElementsAreSpellable(elements, option, LeadLevel(elements[0], name));
        SignsAreSpellable("[", PrintElements(elements, name, LeadLevel(elements[0], name)), "]");
      } else {
        SignsAreSpellable("[", [], "]");
      }
    case ObjectLit(entries) =>
      if entries != [] {
        EntriesAreSpellable(entries, option);
        SignsAreSpellable("{", PrintEntries(entries, name), "}");
      } else {
        SignsAreSpellable("{", [], "}");
      }
    case Unary(op, operand) =>
      PrintIsSpellable(operand, option, 7);
      OneIsSpellable(Lexeme(Operator, op));
      SpellableJoin([Lexeme(Operator, op)], Print(operand, name, 7));
    case Binary(op, left, right) =>
      var level := LevelOfOperator(op);
      PrintIsSpellable(left, option, level);
      PrintIsSpellable(right, option, level + 1);
      OneIsSpellable(Lexeme(Operator, op));
      SpellableJoin(Print(left, name, level), [Lexeme(Operator, op)]);
      SpellableJoin(Print(left, name, level) + [Lexeme(Operator, op)], Print(right, name, level + 1));
    case Conditional(c, t, f) =>
      PrintIsSpellable(c, option, 1);
      PrintIsSpellable(t, option, 0);
      PrintIsSpellable(f, option, 0);
      OneIsSpellable(Sign("?"));
      OneIsSpellable(Sign(":"));
      var a, b, d := Print(c, name, 1), Print(t, name, 0), Print(f, name, 0);
      SpellableJoin(a, [Sign("?")]);
      SpellableJoin(a + [Sign("?")], b);
      SpellableJoin(a + [Sign("?")] + b, [Sign(":")]);
      SpellableJoin(a + [Sign("?")] + b + [Sign(":")], d);
    case _ =>
      LeafIsSpellable(e, option);
  }

  lemma OneIsSpellable(l: Lexeme)
    requires Spellable(l)
    ensures AllSpellable([l])
  {
  }

  lemma SignsAreSpellable(left: string, inner: seq<Lexeme>, right: string)
    requires left in PUNCTUATION && right in PUNCTUATION && AllSpellable(inner)
    ensures AllSpellable([Sign(left)] + inner + [Sign(right)])
  {
  }

  lemma LeafIsSpellable(e: Expr, option: OptionName)
    requires Expressible(e) && (e.StringLit? || e.NumberLit? || e.BoolLit? || e.NullLit? || e.Input?)
    ensures AllSpellable(PrintBare(e, NameOf(option)))
  {
    assert IsWord("true") && IsWord("false") && IsWord("null");
    assert IsWord("reasoningLevel") && IsWord("maxOutputTokens");
  }

  lemma {:induction false} ElementsAreSpellable(elements: seq<Expr>, option: OptionName, lead: nat)
    requires elements != [] && forall k :: 0 <= k < |elements| ==> Expressible(elements[k])
    ensures AllSpellable(PrintElements(elements, NameOf(option), lead))
    decreases elements, 2
  {
    hide Print, AllSpellable, Expressible;
    var name := NameOf(option);
    PrintIsSpellable(elements[0], option, lead);
    if |elements| > 1 {
      ElementsAreSpellable(elements[1..], option, 0);
      OneIsSpellable(Sign(","));
      SpellableJoin([Sign(",")], PrintElements(elements[1..], name, 0));
      SpellableJoin(Print(elements[0], name, lead), [Sign(",")] + PrintElements(elements[1..], name, 0));
    } else {
      assert Print(elements[0], name, lead) + [] == Print(elements[0], name, lead);
    }
  }

  lemma {:induction false} EntriesAreSpellable(entries: seq<Entry>, option: OptionName)
    requires entries != [] && forall k :: 0 <= k < |entries| ==> Expressible(entries[k].value)
    ensures AllSpellable(PrintEntries(entries, NameOf(option)))
    decreases entries, 2
  {
    hide Print, AllSpellable, Expressible;
    var name := NameOf(option);
    var head, value := [Lexeme(StringLiteral, entries[0].key), Sign(":")], Print(entries[0].value, name, 0);
    PrintIsSpellable(entries[0].value, option, 0);
    OneIsSpellable(head[0]);
    OneIsSpellable(head[1]);
    SpellableJoin([head[0]], [head[1]]);
    assert [head[0]] + [head[1]] == head;
    SpellableJoin(head, value);
    if |entries| > 1 {
      EntriesAreSpellable(entries[1..], option);
      OneIsSpellable(Sign(","));
      SpellableJoin([Sign(",")], PrintEntries(entries[1..], name));
      SpellableJoin(head + value, [Sign(",")] + PrintEntries(entries[1..], name));
    } else {
      assert head + value + [] == head + value;
    }
  }
}
