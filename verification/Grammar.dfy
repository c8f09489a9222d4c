/** The grammar of the restricted language as a relation between token ranges and trees, with its operators written out,
    and the proof that the parser decides it (packages/model-option-map/src/parser.ts:61-229). */
module Grammar {
  import opened Tokenizer
  import opened Expressions
  import opened Printing
  import opened RoundTrip
  import opened Lexing

  /** From the loosest to the tightest. */
  datatype Rule =
    | ConditionalRule | OrRule | AndRule | EqualityRule | RelationalRule | AdditiveRule | MultiplicativeRule
    | UnaryRule | PrimaryRule

  predicate IsBinary(rule: Rule) {
    rule != ConditionalRule && rule != UnaryRule && rule != PrimaryRule
  }

  function Tighter(rule: Rule): Rule {
    match rule
    case ConditionalRule => OrRule
    case OrRule => AndRule
    case AndRule => EqualityRule
    case EqualityRule => RelationalRule
    case RelationalRule => AdditiveRule
    case AdditiveRule => MultiplicativeRule
    case MultiplicativeRule => UnaryRule
    case UnaryRule => PrimaryRule
    case PrimaryRule => PrimaryRule
  }

  function Rank(rule: Rule): nat {
    if rule == PrimaryRule then 0
    else if rule == UnaryRule then 1
    else if rule == MultiplicativeRule then 2
    else if rule == AdditiveRule then 3
    else if rule == RelationalRule then 4
    else if rule == EqualityRule then 5
    else if rule == AndRule then 6
    else if rule == OrRule then 7
    else 8
  }

  /** The operators of each binary rule. */
  predicate Joins(rule: Rule, op: string) {
    match rule
    case OrRule => op == "||"
    case AndRule => op == "&&"
    case EqualityRule => op == "==" || op == "!="
    case RelationalRule => op == "<" || op == "<=" || op == ">" || op == ">="
    case AdditiveRule => op == "+" || op == "-"
    case MultiplicativeRule => op == "*" || op == "/" || op == "%"
    case _ => false
  }

  predicate IsOperator(t: Token, op: string) {
    t.kind == Operator && t.value == op
  }

  /** The tokens from i up to j are an expression of this rule, with this tree. */
  ghost predicate Derives(rule: Rule, ts: seq<Token>, name: string, i: nat, j: nat, e: Expr)
    decreases j - i, Rank(rule), 2
  {
    i < j <= |ts| &&
    match rule
    case ConditionalRule =>
      Derives(OrRule, ts, name, i, j, e) || DerivesChoice(ts, name, i, j, e)
    case UnaryRule =>
      || Derives(PrimaryRule, ts, name, i, j, e)
      || (e.Unary? && (e.op == "!" || e.op == "-" || e.op == "+") && IsOperator(ts[i], e.op)
          && Derives(UnaryRule, ts, name, i + 1, j, e.operand))
    case PrimaryRule => DerivesPrimary(ts, name, i, j, e)
    case _ =>
      Derives(Tighter(rule), ts, name, i, j, e) || DerivesJoined(rule, ts, name, i, j, e)
  }

  ghost predicate DerivesChoice(ts: seq<Token>, name: string, i: nat, j: nat, e: Expr)
    decreases if i < j then j - i else 0, 8, 1
  {
    exists k, m :: DerivesConditional(ts, name, i, k, m, j, e)
  }

  ghost predicate DerivesJoined(rule: Rule, ts: seq<Token>, name: string, i: nat, j: nat, e: Expr)
    decreases if i < j then j - i else 0, Rank(rule), 1
  {
    exists k :: DerivesBinary(rule, ts, name, i, k, j, e)
  }

  /** A condition up to k, then ?, an expression up to m, then :, and an expression. */
  ghost predicate DerivesConditional(ts: seq<Token>, name: string, i: nat, k: nat, m: nat, j: nat, e: Expr)
    decreases if i < j then j - i else 0, 8, 0
  {
    && e.Conditional? && i < k < m < j <= |ts| && ts[k].value == "?" && ts[m].value == ":"
    && Derives(OrRule, ts, name, i, k, e.condition)
    && Derives(ConditionalRule, ts, name, k + 1, m, e.whenTrue)
    && Derives(ConditionalRule, ts, name, m + 1, j, e.whenFalse)
  }

  /** An operator of the rule at k: the left operand is of the same rule, the right one of a tighter one. */
  ghost predicate DerivesBinary(rule: Rule, ts: seq<Token>, name: string, i: nat, k: nat, j: nat, e: Expr)
    decreases if i < j then j - i else 0, Rank(rule), 0
  {
    && e.Binary? && Joins(rule, e.op) && i < k < j <= |ts| && IsOperator(ts[k], e.op)
    && Derives(rule, ts, name, i, k, e.left)
    && Derives(Tighter(rule), ts, name, k + 1, j, e.right)
  }

  ghost predicate DerivesPrimary(ts: seq<Token>, name: string, i: nat, j: nat, e: Expr)
    requires i < j <= |ts|
    decreases j - i, 0, 0
  {
    var t := ts[i];
    if t.kind == NumberLiteral then j == i + 1 && e == NumberLit(t.value) && SafeNumber(t.value)
    else if t.kind == StringLiteral then j == i + 1 && e == StringLit(t.value)
    else if t.kind == Identifier then
      && j == i + 1 && (j < |ts| ==> ts[j].value != "(")
      && (if t.value == name then e == Input
          else match t.value
            case "true" => e == BoolLit(true)
            case "false" => e == BoolLit(false)
            case "null" => e == NullLit
            case _ => false)
    else match t.value
      case "(" => i + 2 < j && ts[j - 1].value == ")" && Derives(ConditionalRule, ts, name, i + 1, j - 1, e)
      case "[" =>
        && e.ArrayLit? && i + 1 < j && ts[j - 1].value == "]"
        && if ts[i + 1].value == "]" then j == i + 2 && e.elements == []
           else DerivesElements(ts, name, i + 1, j - 1, e.elements)
      case "{" =>
        && e.ObjectLit? && i + 1 < j && ts[j - 1].value == "}" && DistinctKeys(e.entries)
        && if ts[i + 1].value == "}" then j == i + 2 && e.entries == []
           else DerivesEntries(ts, name, i + 1, j - 1, e.entries)
      case _ => false
  }

  /** One or more expressions between commas. */
  ghost predicate DerivesElements(ts: seq<Token>, name: string, i: nat, j: nat, elements: seq<Expr>)
    decreases if i < j then j - i else 0, 9, 1
  {
    exists k :: DerivesFirst(ts, name, i, k, j, elements)
  }

  ghost predicate DerivesFirst(ts: seq<Token>, name: string, i: nat, k: nat, j: nat, elements: seq<Expr>)
    decreases if i < j then j - i else 0, 9, 0
  {
    && i < k <= j <= |ts| && elements != [] && Derives(ConditionalRule, ts, name, i, k, elements[0])
    && if |elements| == 1 then k == j
       else k < j && ts[k].value == "," && DerivesElements(ts, name, k + 1, j, elements[1..])
  }

  /** One or more entries between commas: a string, a colon and an expression. */
  ghost predicate DerivesEntries(ts: seq<Token>, name: string, i: nat, j: nat, entries: seq<Entry>)
    decreases if i < j then j - i else 0, 9, 1
  {
    exists k :: DerivesFirstEntry(ts, name, i, k, j, entries)
  }

  ghost predicate DerivesFirstEntry(ts: seq<Token>, name: string, i: nat, k: nat, j: nat, entries: seq<Entry>)
    decreases if i < j then j - i else 0, 9, 0
  {
    && i + 2 < k <= j <= |ts| && entries != []
    && ts[i].kind == StringLiteral && ts[i].value == entries[0].key && ts[i + 1].value == ":"
    && Derives(ConditionalRule, ts, name, i + 2, k, entries[0].value)
    && if |entries| == 1 then k == j
       else k < j && ts[k].value == "," && DerivesEntries(ts, name, k + 1, j, entries[1..])
  }

  /** The token does not continue an expression of the rule. */
  predicate Stops(rule: Rule, t: Token)
    decreases Rank(rule)
  {
    match rule
    case PrimaryRule => true
    case UnaryRule => true
    case ConditionalRule => t.value != "?" && Stops(OrRule, t)
    case _ => !(t.kind == Operator && Joins(rule, t.value)) && Stops(Tighter(rule), t)
  }

  // ---------- the rules and the levels of the parser ----------

  function RuleAt(level: nat): Rule {
    match level
    case 0 => ConditionalRule
    case 1 => OrRule
    case 2 => AndRule
    case 3 => EqualityRule
    case 4 => RelationalRule
    case 5 => AdditiveRule
    case 6 => MultiplicativeRule
    case 7 => UnaryRule
    case _ => PrimaryRule
  }

  lemma LevelsAreRules(level: nat, op: string)
    requires 1 <= level <= 6
    ensures op in Operators(level) <==> Joins(RuleAt(level), op)
    ensures IsBinary(RuleAt(level)) && Tighter(RuleAt(level)) == RuleAt(level + 1)
  {
  }

  /** An operator of a rule does not continue the operands of that rule. */
  lemma OperatorStopsOperands(rule: Rule, t: Token)
    requires IsBinary(rule) && t.kind == Operator && Joins(rule, t.value)
    ensures Stops(Tighter(rule), t)
  {
  }

  /** Closing signs, separators and the end of the text stop everything. */
  lemma SignStops(rule: Rule, t: Token)
    requires t.value in {"", ")", "]", "}", ",", ":"}
    ensures Stops(rule, t)
    decreases Rank(rule)
  {
    if IsBinary(rule) || rule == ConditionalRule {
      SignStops(Tighter(rule), t);
    }
  }

  lemma QuestionStopsOperands(t: Token)
    requires t.value == "?"
    ensures Stops(OrRule, t)
  {
  }

  // ---------- what the parser returns is derived ----------

  ghost predicate Sound(rule: Rule, ts: seq<Token>, name: string, i: nat, r: ParseResult) {
    r.Parsed? ==> r.next < |ts| && Derives(rule, ts, name, i, r.next, r.expr) && Stops(rule, ts[r.next])
  }

  lemma {:induction false} ParsedIsDerived(ts: seq<Token>, name: string, level: nat, i: nat)
    requires TokenList(ts) && i < |ts| && level <= 8
    ensures Sound(RuleAt(level), ts, name, i, Parse(ts, name, level, i))
    decreases |ts| - i, 9 - level, 0
  {
    hide Parse, ParseTail, ParsePrimary, Derives, Stops;
    if level == 0 {
      ParsedIsDerived(ts, name, 1, i);
      var c := Parse(ts, name, 1, i);
      if c.Parsed? && ts[c.next].value == "?" {
        ParsedIsDerived(ts, name, 0, c.next + 1);
        var t := Parse(ts, name, 0, c.next + 1);
        if t.Parsed? && ts[t.next].value == ":" {
          ParsedIsDerived(ts, name, 0, t.next + 1);
        }
      }
      ConditionalIsDerived(ts, name, i);
    } else if level <= 6 {
      ParsedIsDerived(ts, name, level + 1, i);
      LevelsAreRules(level, "");
      var left := Parse(ts, name, level + 1, i);
      if left.Parsed? {
        OperandIsDerived(RuleAt(level), ts, name, i, left.next, left.expr);
        TailIsDerived(ts, name, level, i, left.expr, left.next);
      }
      LevelBegins(ts, name, level, i);
    } else if level == 7 {
      if ts[i].kind == Operator && ts[i].value in UNARY_OPERATORS {
        ParsedIsDerived(ts, name, 7, i + 1);
      } else {
        ParsedIsDerived(ts, name, 8, i);
      }
      UnaryIsDerived(ts, name, i);
    } else {
      PrimaryIsDerived(ts, name, i);
      InnermostIsPrimary(ts, name, i);
    }
  }

  lemma OperandIsDerived(rule: Rule, ts: seq<Token>, name: string, i: nat, j: nat, e: Expr)
    requires IsBinary(rule) && i < j <= |ts| && Derives(Tighter(rule), ts, name, i, j, e)
    ensures Derives(rule, ts, name, i, j, e)
  {
  }

  lemma InnermostIsPrimary(ts: seq<Token>, name: string, i: nat)
    requires TokenList(ts) && i < |ts|
    ensures Parse(ts, name, 8, i) == ParsePrimary(ts, name, i)
    ensures forall j, e :: i < j <= |ts| ==> (Derives(PrimaryRule, ts, name, i, j, e) <==> DerivesPrimary(ts, name, i, j, e))
    ensures forall t :: Stops(PrimaryRule, t)
  {
    hide ParsePrimary, DerivesPrimary;
  }

  lemma ConditionalIsDerived(ts: seq<Token>, name: string, i: nat)
    requires TokenList(ts) && i < |ts|
    requires Sound(OrRule, ts, name, i, Parse(ts, name, 1, i))
    requires var c := Parse(ts, name, 1, i);
      c.Parsed? && ts[c.next].value == "?" ==>
        && Sound(ConditionalRule, ts, name, c.next + 1, Parse(ts, name, 0, c.next + 1))
        && var t := Parse(ts, name, 0, c.next + 1);
           t.Parsed? && ts[t.next].value == ":" ==> Sound(ConditionalRule, ts, name, t.next + 1, Parse(ts, name, 0, t.next + 1))
    ensures Sound(ConditionalRule, ts, name, i, Parse(ts, name, 0, i))
  {
    hide Parse, Derives, Stops;
    LowestBegins(ts, name, i);
    var c := Parse(ts, name, 1, i);
    if c.Parsed? {
      if ts[c.next].value != "?" {
        PassesUp(ts, name, i, c.next, c.expr);
      } else {
        var t := Parse(ts, name, 0, c.next + 1);
        if t.Parsed? && ts[t.next].value == ":" {
          var f := Parse(ts, name, 0, t.next + 1);
          if f.Parsed? {
            ChoosingDerives(ts, name, i, c.next, t.next, f.next, Conditional(c.expr, t.expr, f.expr));
          }
        }
      }
    }
  }

  lemma LowestBegins(ts: seq<Token>, name: string, i: nat)
    requires TokenList(ts) && i < |ts|
    ensures Parse(ts, name, 0, i) ==
      match Parse(ts, name, 1, i)
      case Rejected(at) => Rejected(at)
      case Parsed(condition, j) =>
        if ts[j].value != "?" then Parsed(condition, j)
        else
          match Parse(ts, name, 0, j + 1)
          case Rejected(at) => Rejected(at)
          case Parsed(whenTrue, k) =>
            if ts[k].value != ":" then Rejected(ts[k].offset)
            else
              match Parse(ts, name, 0, k + 1)
              case Rejected(at) => Rejected(at)
              case Parsed(whenFalse, n) => Parsed(Conditional(condition, whenTrue, whenFalse), n)
  {
    hide ParseTail, ParsePrimary;
  }

  lemma PassesUp(ts: seq<Token>, name: string, i: nat, j: nat, e: Expr)
    requires i < j < |ts| && Derives(OrRule, ts, name, i, j, e) && Stops(OrRule, ts[j]) && ts[j].value != "?"
    ensures Derives(ConditionalRule, ts, name, i, j, e) && Stops(ConditionalRule, ts[j])
  {
    hide DerivesChoice, DerivesJoined;
  }

  lemma ChoosingDerives(ts: seq<Token>, name: string, i: nat, k: nat, m: nat, j: nat, e: Expr)
    requires i < j && DerivesConditional(ts, name, i, k, m, j, e)
    ensures Derives(ConditionalRule, ts, name, i, j, e)
  {
  }

  lemma UnaryIsDerived(ts: seq<Token>, name: string, i: nat)
    requires TokenList(ts) && i < |ts|
    requires if ts[i].kind == Operator && ts[i].value in UNARY_OPERATORS then Sound(UnaryRule, ts, name, i + 1, Parse(ts, name, 7, i + 1))
             else Sound(PrimaryRule, ts, name, i, Parse(ts, name, 8, i))
    ensures Sound(UnaryRule, ts, name, i, Parse(ts, name, 7, i))
  {
    hide ParsePrimary, DerivesPrimary;
  }

  lemma {:induction false} TailIsDerived(ts: seq<Token>, name: string, level: nat, start: nat, left: Expr, i: nat)
    requires TokenList(ts) && start < i < |ts| && 1 <= level <= 6
    requires Derives(RuleAt(level), ts, name, start, i, left) && Stops(RuleAt(level + 1), ts[i])
    ensures Sound(RuleAt(level), ts, name, start, ParseTail(ts, name, level, left, i))
    decreases |ts| - i, 9 - level, 1
  {
    hide Parse, Derives;
    LevelsAreRules(level, ts[i].value);
    if ts[i].kind == Operator && ts[i].value in Operators(level) {
      ParsedIsDerived(ts, name, level + 1, i + 1);
      var right := Parse(ts, name, level + 1, i + 1);
      if right.Parsed? {
        var e := Binary(ts[i].value, left, right.expr);
        JoiningDerives(RuleAt(level), ts, name, start, i, right.next, e);
        TailIsDerived(ts, name, level, start, e, right.next);
      }
    }
  }

  lemma JoiningDerives(rule: Rule, ts: seq<Token>, name: string, i: nat, k: nat, j: nat, e: Expr)
    requires IsBinary(rule) && DerivesBinary(rule, ts, name, i, k, j, e)
    ensures Derives(rule, ts, name, i, j, e)
  {
  }

  lemma {:induction false} PrimaryIsDerived(ts: seq<Token>, name: string, i: nat)
    requires TokenList(ts) && i < |ts|
    ensures var r := ParsePrimary(ts, name, i); r.Parsed? ==> r.next < |ts| && DerivesPrimary(ts, name, i, r.next, r.expr)
    decreases |ts| - i, 0, 0
  {
    hide Parse, ParseElements, ParseEntries, SafeNumber, Derives, DerivesElements, DerivesEntries;
    var t := ts[i];
    if t.kind == NumberLiteral || t.kind == StringLiteral || t.kind == Identifier {
    } else if t.value == "(" {
      ParsedIsDerived(ts, name, 0, i + 1);
    } else if t.value == "[" {
      if ts[i + 1].value != "]" {
        ElementsAreDerived(ts, name, [], i + 1);
      }
    } else if t.value == "{" {
      if ts[i + 1].value != "}" {
        EntriesAreDerived(ts, name, [], i + 1);
      }
    }
  }

  /** What the element loop has read behind the elements before. */
  lemma {:induction false} ElementsAreDerived(ts: seq<Token>, name: string, before: seq<Expr>, i: nat)
    requires TokenList(ts) && i < |ts|
    ensures var r := ParseElements(ts, name, before, i);
      r.Parsed? ==>
        && r.next < |ts| && ts[r.next - 1].value == "]" && r.expr.ArrayLit? && |r.expr.elements| > |before|
        && r.expr.elements[..|before|] == before && DerivesElements(ts, name, i, r.next - 1, r.expr.elements[|before|..])
    decreases |ts| - i, 10, 0
  {
    hide Parse, Derives, Stops;
    ParsedIsDerived(ts, name, 0, i);
    var first := Parse(ts, name, 0, i);
    if first.Parsed? {
      var all := before + [first.expr];
      if ts[first.next].value == "," {
        ElementsAreDerived(ts, name, all, first.next + 1);
        var r := ParseElements(ts, name, all, first.next + 1);
        if r.Parsed? {
          var rest := r.expr.elements[|before|..];
          assert rest[0] == r.expr.elements[..|all|][|before|] == first.expr;
          assert rest[1..] == r.expr.elements[|all|..];
          assert r.expr.elements[..|before|] == r.expr.elements[..|all|][..|before|];
          assert DerivesFirst(ts, name, i, first.next, r.next - 1, rest);
        }
      } else if ts[first.next].value == "]" {
        assert all[|before|..] == [first.expr];
        assert DerivesFirst(ts, name, i, first.next, first.next, [first.expr]);
      }
    }
  }

  ghost predicate EntriesSound(ts: seq<Token>, name: string, before: seq<Entry>, i: nat, r: ParseResult) {
    r.Parsed? ==>
      && 0 < r.next < |ts| && ts[r.next - 1].value == "}" && r.expr.ObjectLit? && |r.expr.entries| > |before|
      && r.expr.entries[..|before|] == before && DerivesEntries(ts, name, i, r.next - 1, r.expr.entries[|before|..])
      && DistinctKeys(r.expr.entries)
  }

  lemma DistinctOneMore(before: seq<Entry>, e: Entry)
    requires DistinctKeys(before) && !HasKey(before, e.key)
    ensures DistinctKeys(before + [e])
  {
  }

  lemma {:induction false} EntriesAreDerived(ts: seq<Token>, name: string, before: seq<Entry>, i: nat)
    requires TokenList(ts) && i < |ts| && DistinctKeys(before)
    ensures EntriesSound(ts, name, before, i, ParseEntries(ts, name, before, i))
    decreases |ts| - i, 10, 0
  {
    hide Parse, Derives, Stops, HasKey, DistinctKeys;
    if ts[i].kind == StringLiteral && !HasKey(before, ts[i].value) && ts[i + 1].value == ":" {
      ParsedIsDerived(ts, name, 0, i + 2);
      var first := Parse(ts, name, 0, i + 2);
      if first.Parsed? {
        var e := Entry(ts[i].value, first.expr);
        var all := before + [e];
        DistinctOneMore(before, e);
        if ts[first.next].value == "," {
          EntriesAreDerived(ts, name, all, first.next + 1);
          var r := ParseEntries(ts, name, all, first.next + 1);
          if r.Parsed? {
            var rest := r.expr.entries[|before|..];
            assert rest[0] == r.expr.entries[..|all|][|before|] == e;
            assert rest[1..] == r.expr.entries[|all|..];
            assert r.expr.entries[..|before|] == r.expr.entries[..|all|][..|before|];
            assert DerivesFirstEntry(ts, name, i, first.next, r.next - 1, rest);
          }
        } else if ts[first.next].value == "}" {
          assert all[|before|..] == [e];
          assert DerivesFirstEntry(ts, name, i, first.next, first.next, [e]);
        }
      }
    }
  }

  // ---------- what is derived is what the parser returns ----------

  lemma {:induction false} DerivedIsParsed(ts: seq<Token>, name: string, level: nat, i: nat, j: nat, e: Expr)
    requires TokenList(ts) && level <= 8 && j < |ts|
    requires Derives(RuleAt(level), ts, name, i, j, e) && Stops(RuleAt(level), ts[j])
    ensures i < j && Parse(ts, name, level, i) == Parsed(e, j)
    decreases j - i, 9 - level, 1
  {
    hide Parse, ParseTail, ParsePrimary, Derives, Stops;
    DerivesForwards(RuleAt(level), ts, name, i, j, e);
    if level == 0 {
      ConditionalIsParsed(ts, name, i, j, e);
    } else if level <= 6 {
      LevelsAreRules(level, "");
      StopsOperands(RuleAt(level), ts[j]);
      TailIsParsed(ts, name, level, i, j, e);
      TailStopsHere(ts, name, level, e, j);
    } else if level == 7 {
      UnaryIsParsed(ts, name, i, j, e);
    } else {
      InnermostIsPrimary(ts, name, i);
      PrimaryIsParsed(ts, name, i, j, e);
    }
  }

  lemma StopsOperands(rule: Rule, t: Token)
    requires IsBinary(rule) && Stops(rule, t)
    ensures Stops(Tighter(rule), t)
  {
  }

  lemma DerivesForwards(rule: Rule, ts: seq<Token>, name: string, i: nat, j: nat, e: Expr)
    requires Derives(rule, ts, name, i, j, e)
    ensures i < j <= |ts|
  {
  }

  lemma TailStopsHere(ts: seq<Token>, name: string, level: nat, e: Expr, j: nat)
    requires TokenList(ts) && 1 <= level <= 6 && j < |ts| && Stops(RuleAt(level), ts[j])
    ensures ParseTail(ts, name, level, e, j) == Parsed(e, j)
  {
    LevelsAreRules(level, ts[j].value);
  }

  lemma ConditionalCases(ts: seq<Token>, name: string, i: nat, j: nat, e: Expr)
    requires Derives(ConditionalRule, ts, name, i, j, e)
    ensures Derives(OrRule, ts, name, i, j, e) || DerivesChoice(ts, name, i, j, e)
  {
  }

  lemma {:induction false} ConditionalIsParsed(ts: seq<Token>, name: string, i: nat, j: nat, e: Expr)
    requires TokenList(ts) && i < j < |ts| && Derives(ConditionalRule, ts, name, i, j, e) && Stops(ConditionalRule, ts[j])
    ensures Parse(ts, name, 0, i) == Parsed(e, j)
    decreases j - i, 9, 0
  {
    hide Parse, Derives;
    ConditionalCases(ts, name, i, j, e);
    if Derives(OrRule, ts, name, i, j, e) {
      DerivedIsParsed(ts, name, 1, i, j, e);
      ConditionalPasses(ts, name, i, e, j);
    } else {
      var k: nat, m: nat :| DerivesConditional(ts, name, i, k, m, j, e);
      QuestionStopsOperands(ts[k]);
      SignStops(ConditionalRule, ts[m]);
      DerivedIsParsed(ts, name, 1, i, k, e.condition);
      DerivedIsParsed(ts, name, 0, k + 1, m, e.whenTrue);
      DerivedIsParsed(ts, name, 0, m + 1, j, e.whenFalse);
      ConditionalReads(ts, name, i, e, k, m, j);
    }
  }

  lemma BinaryCases(rule: Rule, ts: seq<Token>, name: string, i: nat, j: nat, e: Expr)
    requires IsBinary(rule) && Derives(rule, ts, name, i, j, e)
    ensures Derives(Tighter(rule), ts, name, i, j, e) || DerivesJoined(rule, ts, name, i, j, e)
  {
  }

  /** What has been derived so far becomes the left operand of whatever follows. */
  lemma {:induction false} TailIsParsed(ts: seq<Token>, name: string, level: nat, i: nat, j: nat, e: Expr)
    requires TokenList(ts) && 1 <= level <= 6 && i < j < |ts|
    requires Derives(RuleAt(level), ts, name, i, j, e) && Stops(RuleAt(level + 1), ts[j])
    ensures Parse(ts, name, level, i) == ParseTail(ts, name, level, e, j)
    decreases j - i, 9 - level, 0
  {
    hide Parse, ParseTail, Derives, Stops;
    var rule := RuleAt(level);
    LevelsAreRules(level, "");
    BinaryCases(rule, ts, name, i, j, e);
    if Derives(Tighter(rule), ts, name, i, j, e) {
      DerivedIsParsed(ts, name, level + 1, i, j, e);
      LevelBegins(ts, name, level, i);
    } else {
      var k: nat :| DerivesBinary(rule, ts, name, i, k, j, e);
      OperatorStopsOperands(rule, ts[k]);
      LevelsAreRules(level, e.op);
      TailIsParsed(ts, name, level, i, k, e.left);
      DerivedIsParsed(ts, name, level + 1, k + 1, j, e.right);
      TailContinues(ts, name, level, e, k, j);
    }
  }

  lemma UnaryCases(ts: seq<Token>, name: string, i: nat, j: nat, e: Expr)
    requires Derives(UnaryRule, ts, name, i, j, e)
    ensures i < |ts|
    ensures
      || Derives(PrimaryRule, ts, name, i, j, e)
      || (e.Unary? && e.op in UNARY_OPERATORS && IsOperator(ts[i], e.op) && Derives(UnaryRule, ts, name, i + 1, j, e.operand))
  {
  }

  lemma {:induction false} UnaryIsParsed(ts: seq<Token>, name: string, i: nat, j: nat, e: Expr)
    requires TokenList(ts) && i < j < |ts| && Derives(UnaryRule, ts, name, i, j, e)
    ensures Parse(ts, name, 7, i) == Parsed(e, j)
    decreases j - i, 2, 0
  {
    hide Parse, ParsePrimary, Derives, DerivesPrimary;
    UnaryCases(ts, name, i, j, e);
    if !Derives(PrimaryRule, ts, name, i, j, e) {
      DerivesForwards(UnaryRule, ts, name, i + 1, j, e.operand);
      UnaryIsParsed(ts, name, i + 1, j, e.operand);
      UnaryReads(ts, name, i, e, j);
    } else {
      InnermostIsPrimary(ts, name, i);
      PrimaryIsNoOperator(ts, name, i, j, e);
      PrimaryIsParsed(ts, name, i, j, e);
      PrimaryPasses(ts, name, i);
    }
  }

  lemma PrimaryIsNoOperator(ts: seq<Token>, name: string, i: nat, j: nat, e: Expr)
    requires i < j <= |ts| && DerivesPrimary(ts, name, i, j, e)
    ensures !(ts[i].kind == Operator && ts[i].value in UNARY_OPERATORS)
  {
  }

  lemma PrimaryPasses(ts: seq<Token>, name: string, i: nat)
    requires TokenList(ts) && i < |ts| && !(ts[i].kind == Operator && ts[i].value in UNARY_OPERATORS)
    ensures Parse(ts, name, 7, i) == ParsePrimary(ts, name, i)
  {
    hide ParsePrimary;
  }

  lemma {:induction false} PrimaryIsParsed(ts: seq<Token>, name: string, i: nat, j: nat, e: Expr)
    requires TokenList(ts) && i < j < |ts| && DerivesPrimary(ts, name, i, j, e)
    ensures ParsePrimary(ts, name, i) == Parsed(e, j)
    decreases j - i, 1, 0
  {
    hide Parse, ParseElements, ParseEntries, SafeNumber, Derives, DerivesElements, DerivesEntries, DistinctKeys;
    var t := ts[i];
    if t.kind == NumberLiteral || t.kind == StringLiteral || t.kind == Identifier {
    } else if t.value == "(" {
      SignStops(ConditionalRule, ts[j - 1]);
      DerivedIsParsed(ts, name, 0, i + 1, j - 1, e);
    } else if t.value == "[" {
      if ts[i + 1].value != "]" {
        ElementsAreParsed(ts, name, [], i + 1, j - 1, e.elements);
        assert [] + e.elements == e.elements;
      }
    } else if t.value == "{" {
      if ts[i + 1].value != "}" {
        assert [] + e.entries == e.entries;
        EntriesAreParsed(ts, name, [], i + 1, j - 1, e.entries);
      }
    }
  }

  lemma {:induction false} ElementsAreParsed(ts: seq<Token>, name: string, before: seq<Expr>, i: nat, j: nat, elements: seq<Expr>)
    requires TokenList(ts) && j + 1 < |ts| && ts[j].value == "]" && DerivesElements(ts, name, i, j, elements)
    ensures i < |ts| && ParseElements(ts, name, before, i) == Parsed(ArrayLit(before + elements), j + 1)
    decreases if i < j then j - i else 0, 10, 0
  {
    hide Parse, Derives;
    var k: nat :| DerivesFirst(ts, name, i, k, j, elements);
    SignStops(ConditionalRule, ts[k]);
    DerivedIsParsed(ts, name, 0, i, k, elements[0]);
    if |elements| == 1 {
      assert elements == [elements[0]];
    } else {
      ElementsAreParsed(ts, name, before + [elements[0]], k + 1, j, elements[1..]);
      assert before + [elements[0]] + elements[1..] == before + elements;
    }
  }

  lemma {:induction false} EntriesAreParsed(ts: seq<Token>, name: string, before: seq<Entry>, i: nat, j: nat, entries: seq<Entry>)
    requires TokenList(ts) && j + 1 < |ts| && ts[j].value == "}" && DerivesEntries(ts, name, i, j, entries)
    requires DistinctKeys(before + entries)
    ensures i < |ts| && ParseEntries(ts, name, before, i) == Parsed(ObjectLit(before + entries), j + 1)
    decreases if i < j then j - i else 0, 10, 0
  {
    hide Parse, Derives, DistinctKeys, HasKey;
    var k: nat :| DerivesFirstEntry(ts, name, i, k, j, entries);
    SignStops(ConditionalRule, ts[k]);
    DerivedIsParsed(ts, name, 0, i + 2, k, entries[0].value);
    NewKey(before, entries);
    assert entries[0] == Entry(ts[i].value, entries[0].value);
    if |entries| == 1 {
      assert entries == [entries[0]];
    } else {
      assert before + [entries[0]] + entries[1..] == before + entries;
      EntriesAreParsed(ts, name, before + [entries[0]], k + 1, j, entries[1..]);
    }
  }

  // ---------- the parser decides the grammar ----------

  /** At every level and from every token: the parser returns a tree and stops at a token exactly if the tokens up to
      there are an expression of that rule with this tree, and the token does not continue it. */
  lemma {:induction false} ParsesIff(ts: seq<Token>, name: string, level: nat, i: nat, j: nat, e: Expr)
    requires TokenList(ts) && level <= 8 && i < |ts|
    ensures Parse(ts, name, level, i) == Parsed(e, j) <==>
      j < |ts| && Derives(RuleAt(level), ts, name, i, j, e) && Stops(RuleAt(level), ts[j])
  {
    hide Parse, Derives, Stops;
    ParsedIsDerived(ts, name, level, i);
    if j < |ts| && Derives(RuleAt(level), ts, name, i, j, e) && Stops(RuleAt(level), ts[j]) {
      DerivedIsParsed(ts, name, level, i, j, e);
    }
  }

  /** The text consists of tokens that are, up to the end marker, an expression with this tree, in which the one
      identifier is the name of the option. */
  ghost predicate Means(source: string, option: OptionName, e: Expr) {
    exists ts :: MeansBy(source, option, ts, e)
  }

  ghost predicate MeansBy(source: string, option: OptionName, ts: seq<Token>, e: Expr) {
    var name := match option case ReasoningLevel => "reasoningLevel" case MaxOutputTokens => "maxOutputTokens";
    Consists(source, 0, ts) && ts != [] && Derives(ConditionalRule, ts, name, 0, |ts| - 1, e)
  }

  /** Tokenizer and parser together return a tree exactly if the text means it. */
  lemma {:induction false} SourceMeansIff(source: string, option: OptionName, e: Expr)
    ensures ParseSource(source, option) == Ok(e) <==> Means(source, option, e)
  {
    hide Parse, Derives, Stops, TokenizeFrom, Consists;
    forall ts ensures Consists(source, 0, ts) <==> Tokenize(source) == Lexed(ts) {
      TokenizesIff(source, 0, ts);
    }
    if Tokenize(source).Lexed? {
      TokenizedIsTokenList(source, 0);
      TokenizedIsWellFormed(source, 0);
      var ts := Tokenize(source).tokens;
      ParsedIsDerived(ts, NameOf(option), 0, 0);
      EndsOnce(ts, 0);
      SignStops(ConditionalRule, ts[|ts| - 1]);
      assert MeansBy(source, option, ts, e) <==> Means(source, option, e);
      if Derives(ConditionalRule, ts, NameOf(option), 0, |ts| - 1, e) {
        DerivedIsParsed(ts, NameOf(option), 0, 0, |ts| - 1, e);
      }
    }
  }

  lemma EndsOnce(ts: seq<Token>, from: nat)
    requires WellFormed(ts, from)
    ensures ts != [] && forall k :: 0 <= k < |ts| && ts[k].kind == Eof ==> k == |ts| - 1
  {
  }

  // ---------- precedence and associativity ----------

  /** An operand stands for every tighter rule. */
  lemma {:induction false} Climbs(rule: Rule, from: Rule, ts: seq<Token>, name: string, i: nat, j: nat, e: Expr)
    requires Derives(from, ts, name, i, j, e) && Rank(from) <= Rank(rule) && i < j <= |ts|
    ensures Derives(rule, ts, name, i, j, e)
    decreases Rank(rule)
  {
    if rule != from {
      hide DerivesPrimary, DerivesJoined, DerivesChoice;
      Climbs(Tighter(rule), from, ts, name, i, j, e);
    }
  }

  /** Three operands with two operators between them, from i up to j. */
  ghost predicate Row(ts: seq<Token>, name: string, i: nat, k: nat, m: nat, j: nat, op: string, op': string, a: Expr, b: Expr, c: Expr) {
    && i < k < m < j < |ts| && k + 1 < m && m + 1 < j && IsOperator(ts[k], op) && IsOperator(ts[m], op')
    && Derives(UnaryRule, ts, name, i, k, a) && Derives(UnaryRule, ts, name, k + 1, m, b) && Derives(UnaryRule, ts, name, m + 1, j, c)
  }

  /** a op b op' c, where op' binds tighter: it takes b. */
  lemma TighterComesFirst(ts: seq<Token>, name: string, i: nat, k: nat, m: nat, j: nat, op: string, op': string,
                          a: Expr, b: Expr, c: Expr, loose: Rule, tight: Rule)
    requires TokenList(ts) && Row(ts, name, i, k, m, j, op, op', a, b, c) && Stops(ConditionalRule, ts[j])
    requires Joins(loose, op) && Joins(tight, op') && Rank(tight) < Rank(loose)
    ensures Parse(ts, name, 0, i) == Parsed(Binary(op, a, Binary(op', b, c)), j)
  {
    hide Derives, Parse, Stops;
    RankOfOperators(loose, op);
    RankOfOperators(tight, op');
    Climbs(tight, UnaryRule, ts, name, k + 1, m, b);
    Climbs(Tighter(tight), UnaryRule, ts, name, m + 1, j, c);
    JoiningDerives(tight, ts, name, k + 1, m, j, Binary(op', b, c));
    Climbs(Tighter(loose), tight, ts, name, k + 1, j, Binary(op', b, c));
    Climbs(loose, UnaryRule, ts, name, i, k, a);
    JoiningDerives(loose, ts, name, i, k, j, Binary(op, a, Binary(op', b, c)));
    Climbs(ConditionalRule, loose, ts, name, i, j, Binary(op, a, Binary(op', b, c)));
    DerivedIsParsed(ts, name, 0, i, j, Binary(op, a, Binary(op', b, c)));
  }

  /** a op b op' c, where op binds at least as tight: operators of one rule group to the left. */
  lemma LeftComesFirst(ts: seq<Token>, name: string, i: nat, k: nat, m: nat, j: nat, op: string, op': string,
                       a: Expr, b: Expr, c: Expr, tight: Rule, loose: Rule)
    requires TokenList(ts) && Row(ts, name, i, k, m, j, op, op', a, b, c) && Stops(ConditionalRule, ts[j])
    requires Joins(tight, op) && Joins(loose, op') && Rank(tight) <= Rank(loose)
    ensures Parse(ts, name, 0, i) == Parsed(Binary(op', Binary(op, a, b), c), j)
  {
    hide Derives, Parse, Stops;
    RankOfOperators(loose, op');
    RankOfOperators(tight, op);
    Climbs(tight, UnaryRule, ts, name, i, k, a);
    Climbs(Tighter(tight), UnaryRule, ts, name, k + 1, m, b);
    JoiningDerives(tight, ts, name, i, k, m, Binary(op, a, b));
    Climbs(loose, tight, ts, name, i, m, Binary(op, a, b));
    Climbs(Tighter(loose), UnaryRule, ts, name, m + 1, j, c);
    JoiningDerives(loose, ts, name, i, m, j, Binary(op', Binary(op, a, b), c));
    Climbs(ConditionalRule, loose, ts, name, i, j, Binary(op', Binary(op, a, b), c));
    DerivedIsParsed(ts, name, 0, i, j, Binary(op', Binary(op, a, b), c));
  }

  lemma RankOfOperators(rule: Rule, op: string)
    requires Joins(rule, op)
    ensures IsBinary(rule) && 2 <= Rank(rule) <= 7 && Rank(Tighter(rule)) == Rank(rule) - 1
  {
  }
}
