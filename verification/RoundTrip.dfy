/** Parsing undoes printing, token by token and level by level (packages/model-option-map/src/parser.ts:79-214). */
module RoundTrip {
  import opened Tokenizer
  import opened Expressions
  import opened Printing

  // ---------- printed trees parse back ----------

  /** The tokens from i to j are, in order, these lexemes, and something follows. */
  ghost predicate Shows(ts: seq<Token>, i: nat, ls: seq<Lexeme>) {
    i + |ls| < |ts| && Displays(ts, i, ls)
  }

  ghost predicate Displays(ts: seq<Token>, i: nat, ls: seq<Lexeme>)
    requires i + |ls| <= |ts|
  {
    Plain(ts)[i..i + |ls|] == ls
  }

  /** What may follow a printed expression of the given level. */
  ghost predicate Follows(level: nat, t: Token) {
    && t.value != "("
    && (t.kind == Operator ==> forall l :: level <= l <= 6 ==> t.value !in Operators(l))
    && (level == 0 ==> t.value != "?")
  }

  lemma ShowsParts(ts: seq<Token>, i: nat, a: seq<Lexeme>, b: seq<Lexeme>)
    requires Shows(ts, i, a + b)
    ensures Shows(ts, i, a)
    ensures Shows(ts, i + |a|, b)
  {
    var p := Plain(ts);
    assert p[i..i + |a|] == p[i..i + |a + b|][..|a|];
    assert p[i + |a|..i + |a| + |b|] == p[i..i + |a + b|][|a|..];
  }

  lemma ShowsFirst(ts: seq<Token>, i: nat, ls: seq<Lexeme>)
    requires Shows(ts, i, ls) && ls != []
    ensures i < |ts| && ts[i].kind == ls[0].kind && ts[i].value == ls[0].value
  {
    assert Plain(ts)[i] == Plain(ts)[i..i + |ls|][0];
  }

  lemma ShowsOneThen(ts: seq<Token>, i: nat, l: Lexeme, rest: seq<Lexeme>)
    requires Shows(ts, i, [l] + rest)
    ensures i < |ts| && ts[i].kind == l.kind && ts[i].value == l.value && Shows(ts, i + 1, rest)
  {
    ShowsFirst(ts, i, [l] + rest);
    ShowsParts(ts, i, [l], rest);
  }

  /** An expression read as a primary is read the same at every level, if nothing continues it. */
  lemma {:induction false} ReadAtEveryLevel(ts: seq<Token>, name: string, level: nat, i: nat, e: Expr, j: nat)
    requires TokenList(ts) && i < j < |ts| && level <= 8
    requires ParsePrimary(ts, name, i) == Parsed(e, j) && ts[i].kind != Operator && Follows(level, ts[j])
    ensures Parse(ts, name, level, i) == Parsed(e, j)
    decreases 8 - level
  {
    hide ParsePrimary;
    if level < 8 {
      ReadAtEveryLevel(ts, name, level + 1, i, e, j);
    }
  }

  /** Below the level of its own operator a tree is printed the same at neighbouring levels. */
  lemma PrintedAlike(e: Expr, name: string, level: nat)
    requires LevelOf(e) != level
    ensures Print(e, name, level) == Print(e, name, level + 1)
  {
  }

  ghost predicate ReadsBack(e: Expr, ts: seq<Token>, name: string, level: nat, i: nat)
    requires level <= 8
  {
    TokenList(ts) && i < |ts| && Parse(ts, name, level, i) == Parsed(e, i + |Print(e, name, level)|)
  }

  /** The round trip at the level of tokens, from any place where the tree is printed. */
  lemma {:induction false} ParsesBack(e: Expr, ts: seq<Token>, option: OptionName, level: nat, i: nat)
    requires Expressible(e) && TokenList(ts) && level <= 8
    requires Shows(ts, i, Print(e, NameOf(option), level))
    requires Follows(level, ts[i + |Print(e, NameOf(option), level)|])
    ensures ReadsBack(e, ts, NameOf(option), level, i)
    decreases e, |Print(e, NameOf(option), level)|, 10 - level, 2
  {
    hide Print, PrintBare, Parse, ParseTail, ParsePrimary, Expressible, Displays, Shows, Follows;
    if level == 0 {
      LowestParsesBack(e, ts, option, i);
    } else if level <= 6 {
      BinaryParsesBack(e, ts, option, level, i);
    } else if level == 7 {
      PrefixedParsesBack(e, ts, option, i);
    } else {
      InnermostParsesBack(e, ts, option, i);
    }
  }

  lemma {:induction false} LowestParsesBack(e: Expr, ts: seq<Token>, option: OptionName, i: nat)
    requires Expressible(e) && TokenList(ts)
    requires Shows(ts, i, Print(e, NameOf(option), 0)) && Follows(0, ts[i + |Print(e, NameOf(option), 0)|])
    ensures ReadsBack(e, ts, NameOf(option), 0, i)
    decreases e, |Print(e, NameOf(option), 0)|, 10, 1
  {
    hide Print, PrintBare, Parse, ParseTail, ParsePrimary, Expressible, Displays;
    var name := NameOf(option);
    if e.Conditional? {
      ConditionalParsesBack(e, ts, option, i);
    } else {
      PrintedAlike(e, name, 0);
      ParsesBack(e, ts, option, 1, i);
      ConditionalPasses(ts, name, i, e, i + |Print(e, name, 0)|);
    }
  }

  lemma {:induction false} BinaryParsesBack(e: Expr, ts: seq<Token>, option: OptionName, level: nat, i: nat)
    requires Expressible(e) && TokenList(ts) && 1 <= level <= 6
    requires Shows(ts, i, Print(e, NameOf(option), level)) && Follows(level, ts[i + |Print(e, NameOf(option), level)|])
    ensures ReadsBack(e, ts, NameOf(option), level, i)
    decreases e, |Print(e, NameOf(option), level)|, 10 - level, 1
  {
    hide Print, PrintBare, Parse, ParseTail, ParsePrimary, Expressible, Displays;
    TailParsesBack(e, ts, option, level, i);
    TailStops(ts, NameOf(option), level, e, i + |Print(e, NameOf(option), level)|);
  }

  lemma {:induction false} PrefixedParsesBack(e: Expr, ts: seq<Token>, option: OptionName, i: nat)
    requires Expressible(e) && TokenList(ts)
    requires Shows(ts, i, Print(e, NameOf(option), 7)) && Follows(7, ts[i + |Print(e, NameOf(option), 7)|])
    ensures ReadsBack(e, ts, NameOf(option), 7, i)
    decreases e, |Print(e, NameOf(option), 7)|, 3, 1
  {
    hide Print, PrintBare, Parse, ParseTail, ParsePrimary, Expressible, Displays;
    var name := NameOf(option);
    if e.Unary? {
      UnaryParsesBack(e, ts, option, i);
    } else {
      PrintedAlike(e, name, 7);
      ParsesBack(e, ts, option, 8, i);
      FirstOfPrimary(e, name);
      ShowsFirst(ts, i, Print(e, name, 8));
      UnaryPasses(ts, name, i);
    }
  }

  lemma {:induction false} InnermostParsesBack(e: Expr, ts: seq<Token>, option: OptionName, i: nat)
    requires Expressible(e) && TokenList(ts)
    requires Shows(ts, i, Print(e, NameOf(option), 8)) && Follows(8, ts[i + |Print(e, NameOf(option), 8)|])
    ensures ReadsBack(e, ts, NameOf(option), 8, i)
    decreases e, |Print(e, NameOf(option), 8)|, 2, 1
  {
    hide Print, PrintBare, Parse, ParseTail, ParsePrimary, Expressible, Displays;
    var name := NameOf(option);
    PrimaryIsLast(ts, name, i);
    NoParentheses(e, name, 8);
    if LevelOf(e) < 8 {
      ParenthesesParseBack(e, ts, option, i);
    } else {
      PrimaryParsesBack(e, ts, option, i);
    }
  }

  lemma NoParentheses(e: Expr, name: string, level: nat)
    ensures LevelOf(e) >= level ==> Print(e, name, level) == PrintBare(e, name)
    ensures LevelOf(e) < level ==> Print(e, name, level) == [Sign("(")] + PrintBare(e, name) + [Sign(")")]
  {
  }

  lemma ConditionalPasses(ts: seq<Token>, name: string, i: nat, e: Expr, j: nat)
    requires TokenList(ts) && i < j < |ts| && Parse(ts, name, 1, i) == Parsed(e, j) && ts[j].value != "?"
    ensures Parse(ts, name, 0, i) == Parsed(e, j)
  {
  }

  lemma TailStops(ts: seq<Token>, name: string, level: nat, e: Expr, j: nat)
    requires TokenList(ts) && j < |ts| && 1 <= level <= 6 && Follows(level, ts[j])
    ensures ParseTail(ts, name, level, e, j) == Parsed(e, j)
  {
  }

  lemma UnaryPasses(ts: seq<Token>, name: string, i: nat)
    requires TokenList(ts) && i < |ts| && ts[i].kind != Operator
    ensures Parse(ts, name, 7, i) == Parse(ts, name, 8, i)
  {
  }

  lemma PrimaryIsLast(ts: seq<Token>, name: string, i: nat)
    requires TokenList(ts) && i < |ts|
    ensures Parse(ts, name, 8, i) == ParsePrimary(ts, name, i)
  {
  }

  lemma FirstOfPrimary(e: Expr, name: string)
    ensures Print(e, name, 8)[0].kind != Operator
  {
  }

  /** At a binary level, what has been printed becomes the left operand of whatever follows. */
  lemma {:induction false} TailParsesBack(e: Expr, ts: seq<Token>, option: OptionName, level: nat, i: nat)
    requires Expressible(e) && TokenList(ts) && 1 <= level <= 6
    requires Shows(ts, i, Print(e, NameOf(option), level))
    requires Follows(level + 1, ts[i + |Print(e, NameOf(option), level)|])
    ensures i < |ts|
    ensures Parse(ts, NameOf(option), level, i)
         == ParseTail(ts, NameOf(option), level, e, i + |Print(e, NameOf(option), level)|)
    decreases e, |Print(e, NameOf(option), level)|, 10 - level, 0
  {
    hide Print, PrintBare, Parse, ParseTail, ParsePrimary, Expressible, Displays;
    var name := NameOf(option);
    var j := i + |Print(e, name, level)|;
    if LevelOf(e) == level {
      NoParentheses(e, name, level);
      BinaryParts(e, name);
      var left, op, right := Print(e.left, name, level), Lexeme(Operator, e.op), Print(e.right, name, level + 1);
      assert left + [op] + right == left + ([op] + right);
      ShowsParts(ts, i, left, [op] + right);
      ShowsOneThen(ts, i + |left|, op, right);
      OperatorFollows(e.op, ts[i + |left|], level);
      TailParsesBack(e.left, ts, option, level, i);
      ParsesBack(e.right, ts, option, level + 1, i + |left| + 1);
      TailContinues(ts, name, level, e, i + |left|, j);
    } else {
      PrintedAlike(e, name, level);
      ParsesBack(e, ts, option, level + 1, i);
      LevelBegins(ts, name, level, i);
    }
  }

  lemma BinaryParts(e: Expr, name: string)
    requires Expressible(e) && 1 <= LevelOf(e) <= 6
    ensures e.Binary? && e.op in Operators(LevelOf(e)) && Expressible(e.left) && Expressible(e.right)
    ensures PrintBare(e, name)
         == Print(e.left, name, LevelOf(e)) + [Lexeme(Operator, e.op)] + Print(e.right, name, LevelOf(e) + 1)
  {
  }

  lemma OperatorFollows(op: string, t: Token, level: nat)
    requires 1 <= level <= 6 && op in Operators(level) && t.kind == Operator && t.value == op
    ensures Follows(level + 1, t)
  {
  }

  lemma TailContinues(ts: seq<Token>, name: string, level: nat, e: Expr, i: nat, j: nat)
    requires TokenList(ts) && 1 <= level <= 6 && i + 1 < j < |ts| && e.Binary?
    requires ts[i].kind == Operator && ts[i].value == e.op && e.op in Operators(level)
    requires Parse(ts, name, level + 1, i + 1) == Parsed(e.right, j)
    ensures ParseTail(ts, name, level, e.left, i) == ParseTail(ts, name, level, e, j)
  {
  }

  lemma LevelBegins(ts: seq<Token>, name: string, level: nat, i: nat)
    requires TokenList(ts) && i < |ts| && 1 <= level <= 6
    ensures Parse(ts, name, level, i) ==
      match Parse(ts, name, level + 1, i)
      case Rejected(at) => Rejected(at)
      case Parsed(left, j) => ParseTail(ts, name, level, left, j)
  {
  }

  lemma {:induction false} ConditionalParsesBack(e: Expr, ts: seq<Token>, option: OptionName, i: nat)
    requires Expressible(e) && TokenList(ts) && e.Conditional?
    requires Shows(ts, i, Print(e, NameOf(option), 0))
    requires Follows(0, ts[i + |Print(e, NameOf(option), 0)|])
    ensures ReadsBack(e, ts, NameOf(option), 0, i)
    decreases e, |Print(e, NameOf(option), 0)|, 9, 0
  {
    hide Print, PrintBare, Parse, Displays;
    var name := NameOf(option);
    NoParentheses(e, name, 0);
    assert Print(e, name, 0) == Print(e.condition, name, 1) + ([Sign("?")] + (Print(e.whenTrue, name, 0) + ([Sign(":")] + Print(e.whenFalse, name, 0)))) by {
      ConditionalParts(e, name);
    }
    var c, t, f := Print(e.condition, name, 1), Print(e.whenTrue, name, 0), Print(e.whenFalse, name, 0);
    ShowsParts(ts, i, c, [Sign("?")] + (t + ([Sign(":")] + f)));
    ShowsOneThen(ts, i + |c|, Sign("?"), t + ([Sign(":")] + f));
    ShowsParts(ts, i + |c| + 1, t, [Sign(":")] + f);
    ShowsOneThen(ts, i + |c| + 1 + |t|, Sign(":"), f);
    ParsesBack(e.condition, ts, option, 1, i);
    ParsesBack(e.whenTrue, ts, option, 0, i + |c| + 1);
    ParsesBack(e.whenFalse, ts, option, 0, i + |c| + 1 + |t| + 1);
    ConditionalReads(ts, name, i, e, i + |c|, i + |c| + 1 + |t|, i + |Print(e, name, 0)|);
  }

  lemma ConditionalParts(e: Expr, name: string)
    requires e.Conditional?
    ensures Print(e, name, 0) == Print(e.condition, name, 1) + ([Sign("?")] + (Print(e.whenTrue, name, 0) + ([Sign(":")] + Print(e.whenFalse, name, 0))))
  {
  }

  lemma ConditionalReads(ts: seq<Token>, name: string, i: nat, e: Expr, j: nat, k: nat, n: nat)
    requires TokenList(ts) && e.Conditional? && i < j < k < n < |ts|
    requires Parse(ts, name, 1, i) == Parsed(e.condition, j) && ts[j].value == "?"
    requires Parse(ts, name, 0, j + 1) == Parsed(e.whenTrue, k) && ts[k].value == ":"
    requires k + 1 < |ts| && Parse(ts, name, 0, k + 1) == Parsed(e.whenFalse, n)
    ensures Parse(ts, name, 0, i) == Parsed(e, n)
  {
  }

  lemma {:induction false} UnaryParsesBack(e: Expr, ts: seq<Token>, option: OptionName, i: nat)
    requires Expressible(e) && TokenList(ts) && e.Unary?
    requires Shows(ts, i, Print(e, NameOf(option), 7))
    requires Follows(7, ts[i + |Print(e, NameOf(option), 7)|])
    ensures ReadsBack(e, ts, NameOf(option), 7, i)
    decreases e, |Print(e, NameOf(option), 7)|, 3, 0
  {
    hide Print, Parse, Displays;
    var name := NameOf(option);
    assert Print(e, name, 7) == [Lexeme(Operator, e.op)] + Print(e.operand, name, 7) by { NoParentheses(e, name, 7); }
    ShowsOneThen(ts, i, Lexeme(Operator, e.op), Print(e.operand, name, 7));
    ParsesBack(e.operand, ts, option, 7, i + 1);
    UnaryReads(ts, name, i, e, i + |Print(e, name, 7)|);
  }

  lemma UnaryReads(ts: seq<Token>, name: string, i: nat, e: Expr, j: nat)
    requires TokenList(ts) && e.Unary? && i + 1 < j < |ts| && e.op in UNARY_OPERATORS
    requires ts[i].kind == Operator && ts[i].value == e.op && Parse(ts, name, 7, i + 1) == Parsed(e.operand, j)
    ensures Parse(ts, name, 7, i) == Parsed(e, j)
  {
  }

  /** A tree in parentheses is read as a primary. */
  lemma {:induction false} ParenthesesParseBack(e: Expr, ts: seq<Token>, option: OptionName, i: nat)
    requires Expressible(e) && TokenList(ts)
    requires Shows(ts, i, [Sign("(")] + PrintBare(e, NameOf(option)) + [Sign(")")])
    ensures i < |ts| && ts[i].kind == Punctuation
    ensures ParsePrimary(ts, NameOf(option), i) == Parsed(e, i + |PrintBare(e, NameOf(option))| + 2)
    decreases e, |PrintBare(e, NameOf(option))| + 1, 0, 0
  {
    hide Print, PrintBare, Parse, ParsePrimary, Displays;
    var name := NameOf(option);
    var bare := PrintBare(e, name);
    NoParentheses(e, name, 0);
    assert [Sign("(")] + bare + [Sign(")")] == [Sign("(")] + (bare + [Sign(")")]);
    ShowsOneThen(ts, i, Sign("("), bare + [Sign(")")]);
    ShowsParts(ts, i + 1, bare, [Sign(")")]);
    ShowsFirst(ts, i + 1 + |bare|, [Sign(")")]);
    ParsesBack(e, ts, option, 0, i + 1);
    ParenthesesRead(ts, name, i, e, i + 1 + |bare|);
  }

  lemma ParenthesesRead(ts: seq<Token>, name: string, i: nat, e: Expr, j: nat)
    requires TokenList(ts) && i + 1 < j < |ts| && ts[i].kind == Punctuation && ts[i].value == "("
    requires Parse(ts, name, 0, i + 1) == Parsed(e, j) && ts[j].value == ")"
    ensures ParsePrimary(ts, name, i) == Parsed(e, j + 1)
  {
  }

  lemma {:induction false} PrimaryParsesBack(e: Expr, ts: seq<Token>, option: OptionName, i: nat)
    requires Expressible(e) && TokenList(ts) && LevelOf(e) == 8
    requires Shows(ts, i, PrintBare(e, NameOf(option)))
    requires ts[i + |PrintBare(e, NameOf(option))|].value != "("
    ensures i < |ts| && ParsePrimary(ts, NameOf(option), i) == Parsed(e, i + |PrintBare(e, NameOf(option))|)
    decreases e, |PrintBare(e, NameOf(option))|, 0, 0
  {
    hide Print, Parse, ParseElements, ParseEntries, PrintElements, PrintEntries, SafeNumber, LeadLevel, Displays;
    var name := NameOf(option);
    ShowsFirst(ts, i, PrintBare(e, name));
    match e
    case ArrayLit(elements) =>
      if elements == [] {
        EmptyShown(ts, i, "[", "]");
      } else {
        ArrayParsesBack(e, ts, option, i);
      }
    case ObjectLit(entries) =>
      if entries == [] {
        EmptyShown(ts, i, "{", "}");
      } else {
        ObjectParsesBack(e, ts, option, i);
      }
    case _ =>
  }

  lemma EmptyShown(ts: seq<Token>, i: nat, left: string, right: string)
    requires Shows(ts, i, [Sign(left)] + [] + [Sign(right)])
    ensures ts[i + 1].value == right
  {
    assert [Sign(left)] + [] + [Sign(right)] == [Sign(left)] + [Sign(right)];
    ShowsOneThen(ts, i, Sign(left), [Sign(right)]);
    ShowsFirst(ts, i + 1, [Sign(right)]);
  }

  lemma {:induction false} ArrayParsesBack(e: Expr, ts: seq<Token>, option: OptionName, i: nat)
    requires Expressible(e) && TokenList(ts) && e.ArrayLit? && e.elements != []
    requires Shows(ts, i, PrintBare(e, NameOf(option)))
    ensures i < |ts| && ParsePrimary(ts, NameOf(option), i) == Parsed(e, i + |PrintBare(e, NameOf(option))|)
    decreases e, 0, 0, 0
  {
    hide Print, Parse, ParseElements, PrintElements, LeadLevel, Displays;
    var name := NameOf(option);
    var lead := LeadLevel(e.elements[0], name);
    var inner := PrintElements(e.elements, name, lead);
    assert PrintBare(e, name) == [Sign("[")] + (inner + [Sign("]")]);
    ShowsOneThen(ts, i, Sign("["), inner + [Sign("]")]);
    ShowsFirst(ts, i + 1, inner + [Sign("]")]);
    LeadIsNotClosing(e.elements, name);
    ElementsParseBack(e.elements, [], lead, ts, option, i + 1);
    assert [] + e.elements == e.elements;
  }

  lemma LeadIsNotClosing(elements: seq<Expr>, name: string)
    requires elements != []
    ensures PrintElements(elements, name, LeadLevel(elements[0], name))[0].value != "]"
    ensures LeadLevel(elements[0], name) == 0 || LeadLevel(elements[0], name) == 9
  {
    hide Print, PrintBare;
    var lead := LeadLevel(elements[0], name);
    var first := Print(elements[0], name, lead);
    NoParentheses(elements[0], name, 9);
    assert first[0].value != "]";
    assert PrintElements(elements, name, lead)[0] == first[0];
  }

  lemma {:induction false} ElementsParseBack(elements: seq<Expr>, before: seq<Expr>, lead: nat, ts: seq<Token>, option: OptionName, i: nat)
    requires elements != [] && TokenList(ts) && (lead == 0 || lead == 9)
    requires forall k :: 0 <= k < |elements| ==> Expressible(elements[k])
    requires Shows(ts, i, PrintElements(elements, NameOf(option), lead) + [Sign("]")])
    ensures i < |ts|
    ensures ParseElements(ts, NameOf(option), before, i)
         == Parsed(ArrayLit(before + elements), i + |PrintElements(elements, NameOf(option), lead)| + 1)
    decreases elements, 0, 0, 0
  {
    hide Print, PrintBare, Parse, ParsePrimary, Expressible, Displays;
    var name := NameOf(option);
    var first := Print(elements[0], name, lead);
    if |elements| == 1 {
      assert PrintElements(elements, name, lead) == first;
      ShowsParts(ts, i, first, [Sign("]")]);
      ShowsFirst(ts, i + |first|, [Sign("]")]);
      ElementParsesBack(elements[0], lead, ts, option, i);
      assert elements == [elements[0]];
    } else {
      var rest := PrintElements(elements[1..], name, 0) + [Sign("]")];
      assert PrintElements(elements, name, lead) + [Sign("]")] == first + ([Sign(",")] + rest);
      ShowsParts(ts, i, first, [Sign(",")] + rest);
      ShowsOneThen(ts, i + |first|, Sign(","), rest);
      ElementParsesBack(elements[0], lead, ts, option, i);
      ElementsParseBack(elements[1..], before + [elements[0]], 0, ts, option, i + |first| + 1);
      assert before + [elements[0]] + elements[1..] == before + elements;
    }
  }

  /** One array element, in its forced parentheses or without. */
  lemma {:induction false} ElementParsesBack(e: Expr, lead: nat, ts: seq<Token>, option: OptionName, i: nat)
    requires Expressible(e) && TokenList(ts) && (lead == 0 || lead == 9)
    requires Shows(ts, i, Print(e, NameOf(option), lead))
    requires Follows(0, ts[i + |Print(e, NameOf(option), lead)|])
    ensures i < |ts| && Parse(ts, NameOf(option), 0, i) == Parsed(e, i + |Print(e, NameOf(option), lead)|)
    decreases e, |Print(e, NameOf(option), lead)| + 1, 0, 0
  {
    hide Print, PrintBare, Parse, ParsePrimary, Expressible, Displays;
    var name := NameOf(option);
    if lead == 0 {
      ParsesBack(e, ts, option, 0, i);
    } else {
      NoParentheses(e, name, 9);
      ParenthesesParseBack(e, ts, option, i);
      ReadAtEveryLevel(ts, name, 0, i, e, i + |Print(e, name, lead)|);
    }
  }

  lemma {:induction false} ObjectParsesBack(e: Expr, ts: seq<Token>, option: OptionName, i: nat)
    requires Expressible(e) && TokenList(ts) && e.ObjectLit? && e.entries != []
    requires Shows(ts, i, PrintBare(e, NameOf(option)))
    ensures i < |ts| && ParsePrimary(ts, NameOf(option), i) == Parsed(e, i + |PrintBare(e, NameOf(option))|)
    decreases e, 0, 0, 0
  {
    hide Print, Parse, ParseEntries, Displays;
    var name := NameOf(option);
    var inner := PrintEntries(e.entries, name);
    assert PrintBare(e, name) == [Sign("{")] + (inner + [Sign("}")]);
    ShowsOneThen(ts, i, Sign("{"), inner + [Sign("}")]);
    ShowsFirst(ts, i + 1, inner + [Sign("}")]);
    EntriesParseBack(e.entries, [], ts, option, i + 1);
    assert [] + e.entries == e.entries;
  }

  lemma {:induction false} EntriesParseBack(entries: seq<Entry>, before: seq<Entry>, ts: seq<Token>, option: OptionName, i: nat)
    requires entries != [] && TokenList(ts) && DistinctKeys(before + entries)
    requires forall k :: 0 <= k < |entries| ==> Expressible(entries[k].value)
    requires Shows(ts, i, PrintEntries(entries, NameOf(option)) + [Sign("}")])
    ensures i < |ts|
    ensures ParseEntries(ts, NameOf(option), before, i)
         == Parsed(ObjectLit(before + entries), i + |PrintEntries(entries, NameOf(option))| + 1)
    decreases entries, 0, 0, 0
  {
    hide Print, PrintBare, Parse, ParsePrimary, Expressible, DistinctKeys, Displays;
    var name := NameOf(option);
    var key, value := Lexeme(StringLiteral, entries[0].key), Print(entries[0].value, name, 0);
    NewKey(before, entries);
    if |entries| == 1 {
      PrintedEntries(entries, name);
      EntryShown(ts, i, key, value, [Sign("}")]);
      ShowsFirst(ts, i + 2 + |value|, [Sign("}")]);
      ParsesBack(entries[0].value, ts, option, 0, i + 2);
      assert entries == [Entry(entries[0].key, entries[0].value)];
    } else {
      var rest := PrintEntries(entries[1..], name) + [Sign("}")];
      PrintedEntries(entries, name);
      EntryShown(ts, i, key, value, [Sign(",")] + rest);
      ShowsOneThen(ts, i + 2 + |value|, Sign(","), rest);
      ParsesBack(entries[0].value, ts, option, 0, i + 2);
      assert before + [Entry(entries[0].key, entries[0].value)] + entries[1..] == before + entries;
      EntriesParseBack(entries[1..], before + [Entry(entries[0].key, entries[0].value)], ts, option, i + 2 + |value| + 1);
    }
  }

  /** The shape of printed entries with the closing brace. */
  lemma PrintedEntries(entries: seq<Entry>, name: string)
    requires entries != []
    ensures PrintEntries(entries, name) + [Sign("}")]
         == [Lexeme(StringLiteral, entries[0].key)] + ([Sign(":")] + (Print(entries[0].value, name, 0) +
              if |entries| == 1 then [Sign("}")] else [Sign(",")] + (PrintEntries(entries[1..], name) + [Sign("}")])))
    ensures |PrintEntries(entries, name)| == 2 + |Print(entries[0].value, name, 0)|
         + if |entries| == 1 then 0 else 1 + |PrintEntries(entries[1..], name)|
  {
    hide Print;
  }

  lemma EntryShown(ts: seq<Token>, i: nat, key: Lexeme, value: seq<Lexeme>, rest: seq<Lexeme>)
    requires Shows(ts, i, [key] + ([Sign(":")] + (value + rest)))
    ensures i + 2 <= |ts| && ts[i].kind == key.kind && ts[i].value == key.value && ts[i + 1].value == ":"
    ensures Shows(ts, i + 2, value) && Shows(ts, i + 2 + |value|, rest)
  {
    ShowsOneThen(ts, i, key, [Sign(":")] + (value + rest));
    ShowsOneThen(ts, i + 1, Sign(":"), value + rest);
    ShowsParts(ts, i + 2, value, rest);
  }

  lemma NewKey(before: seq<Entry>, entries: seq<Entry>)
    requires DistinctKeys(before + entries) && entries != []
    ensures !HasKey(before, entries[0].key)
  {
    var all := before + entries;
    forall k | 0 <= k < |before| ensures before[k].key != entries[0].key {
      assert all[k].key != all[|before|].key;
    }
  }
}
