/** The round trip on text, and the exact set of trees that have a source
    (packages/model-option-map/src/parser.ts, packages/model-option-map/src/tokenizer.ts). */
module Sources {
  import opened Tokenizer
  import opened Expressions
  import opened Printing
  import opened RoundTrip

  // ---------- the round trip on text ----------

  /** Printing any expressible tree and tokenizing and parsing the text gives the tree back: precedence,
      left associativity, right-nested conditionals, escapes and all. */
  lemma SourceParsesBack(e: Expr, option: OptionName)
    requires Expressible(e)
    ensures ParseSource(Source(e, option), option) == Ok(e)
  {
    hide Print, Expressible, TokenizeFrom, Parse, Spellable, Spell, Plain;
    var text, ls := Source(e, option), Print(e, NameOf(option), 0);
    PrintIsSpellable(e, option, 0);
    assert text[0..] == text;
    SpellingReadsBack(text, 0, ls);
    TokenizedIsTokenList(text, 0);
    var ts := TokenizeFrom(text, 0).tokens;
    EndFollows(ts, ls);
    ParsesBack(e, ts, option, 0, 0);
  }

  lemma EndFollows(ts: seq<Token>, ls: seq<Lexeme>)
    requires TokenList(ts) && Plain(ts) == ls + [Lexeme(Eof, "")]
    ensures Shows(ts, 0, ls) && ts[|ls|].kind == Eof && Follows(0, ts[|ls|])
  {
    assert Plain(ts)[0..|ls|] == ls;
    assert Plain(ts)[|ls|] == Lexeme(Eof, "");
  }

  // ---------- whatever the parser returns is expressible ----------

  ghost predicate Sound(r: ParseResult) {
    r.Parsed? ==> Expressible(r.expr)
  }

  lemma {:induction false} ParseIsSound(ts: seq<Token>, name: string, level: nat, i: nat)
    requires TokenList(ts) && i < |ts| && level <= 8
    ensures Sound(Parse(ts, name, level, i))
    decreases |ts| - i, 9 - level, 0
  {
    hide ParseTail, ParsePrimary;
    if level == 0 {
      ParseIsSound(ts, name, 1, i);
      var c := Parse(ts, name, 1, i);
      if c.Parsed? && ts[c.next].value == "?" {
        ParseIsSound(ts, name, 0, c.next + 1);
        var t := Parse(ts, name, 0, c.next + 1);
        if t.Parsed? && ts[t.next].value == ":" {
          ParseIsSound(ts, name, 0, t.next + 1);
        }
      }
    } else if level <= 6 {
      ParseIsSound(ts, name, level + 1, i);
      var left := Parse(ts, name, level + 1, i);
      if left.Parsed? {
        TailIsSound(ts, name, level, left.expr, left.next);
      }
    } else if level == 7 {
      if ts[i].kind == Operator && ts[i].value in UNARY_OPERATORS {
        ParseIsSound(ts, name, 7, i + 1);
      } else {
        ParseIsSound(ts, name, 8, i);
      }
    } else {
      PrimaryIsSound(ts, name, i);
    }
  }

  lemma {:induction false} TailIsSound(ts: seq<Token>, name: string, level: nat, left: Expr, i: nat)
    requires TokenList(ts) && i < |ts| && 1 <= level <= 6 && Expressible(left)
    ensures Sound(ParseTail(ts, name, level, left, i))
    decreases |ts| - i, 9 - level, 1
  {
    hide Parse;
    if ts[i].kind == Operator && ts[i].value in Operators(level) {
      ParseIsSound(ts, name, level + 1, i + 1);
      var right := Parse(ts, name, level + 1, i + 1);
      if right.Parsed? {
        TailIsSound(ts, name, level, Binary(ts[i].value, left, right.expr), right.next);
      }
    }
  }

  lemma {:induction false} PrimaryIsSound(ts: seq<Token>, name: string, i: nat)
    requires TokenList(ts) && i < |ts|
    ensures Sound(ParsePrimary(ts, name, i))
    decreases |ts| - i, 0, 0
  {
    hide Parse, ParseElements, ParseEntries, SafeNumber;
    var token := ts[i];
    if token.kind == NumberLiteral || token.kind == StringLiteral || token.kind == Identifier {
    } else if token.value == "(" {
      ParseIsSound(ts, name, 0, i + 1);
    } else if token.value == "[" {
      if ts[i + 1].value != "]" {
        ElementsAreSound(ts, name, [], i + 1);
      }
    } else if token.value == "{" {
      if ts[i + 1].value != "}" {
        EntriesAreSound(ts, name, [], i + 1);
      }
    }
  }

  lemma {:induction false} ElementsAreSound(ts: seq<Token>, name: string, before: seq<Expr>, i: nat)
    requires TokenList(ts) && i < |ts| && forall k :: 0 <= k < |before| ==> Expressible(before[k])
    ensures Sound(ParseElements(ts, name, before, i))
    decreases |ts| - i, 10, 0
  {
    hide Parse;
    ParseIsSound(ts, name, 0, i);
    var e := Parse(ts, name, 0, i);
    if e.Parsed? && ts[e.next].value == "," {
      ElementsAreSound(ts, name, before + [e.expr], e.next + 1);
    }
  }

  lemma {:induction false} EntriesAreSound(ts: seq<Token>, name: string, before: seq<Entry>, i: nat)
    requires TokenList(ts) && i < |ts| && forall k :: 0 <= k < |before| ==> Expressible(before[k].value)
    requires DistinctKeys(before) && if before == [] then ts[i].value != "}" else before[0].key != "}"
    ensures Sound(ParseEntries(ts, name, before, i))
    decreases |ts| - i, 10, 0
  {
    hide Parse;
    if ts[i].kind == StringLiteral && !HasKey(before, ts[i].value) && ts[i + 1].value == ":" {
      ParseIsSound(ts, name, 0, i + 2);
      var v := Parse(ts, name, 0, i + 2);
      if v.Parsed? && ts[v.next].value == "," {
        EntriesAreSound(ts, name, before + [Entry(ts[i].value, v.expr)], v.next + 1);
      }
    }
  }

  /** The parser's image, exactly: a tree comes from some text if and only if it is expressible.  The one
      restriction beyond legal operators, distinct keys and safe numbers is that no object starts with the key "}". */
  lemma SourceExistsIff(e: Expr, option: OptionName)
    ensures (exists source :: ParseSource(source, option) == Ok(e)) <==> Expressible(e)
  {
    if Expressible(e) {
      SourceParsesBack(e, option);
    }
    forall source | ParseSource(source, option) == Ok(e) ensures Expressible(e) {
      ParsedIsExpressible(source, option);
    }
  }

  lemma ParsedIsExpressible(source: string, option: OptionName)
    ensures ParseSource(source, option).Ok? ==> Expressible(ParseSource(source, option).expr)
  {
    hide Parse, Expressible, TokenizeFrom;
    TokenizedIsTokenList(source, 0);
    if Tokenize(source).Lexed? {
      ParseIsSound(Tokenize(source).tokens, NameOf(option), 0, 0);
    }
  }

  /** Why the printer needs its extra parentheses: after "[" any token that reads "]", a string included,
      closes the array. */
  lemma StringClosesArray(ts: seq<Token>, name: string, i: nat)
    requires TokenList(ts) && Shows(ts, i, [Sign("["), Lexeme(StringLiteral, "]"), Sign("]")])
    ensures ParsePrimary(ts, name, i) == Parsed(ArrayLit([]), i + 2)
    ensures Parse(ts, name, 0, i) != Parsed(ArrayLit([StringLit("]")]), i + 3)
  {
    assert [Sign("["), Lexeme(StringLiteral, "]"), Sign("]")] == [Sign("[")] + [Lexeme(StringLiteral, "]"), Sign("]")];
    ShowsOneThen(ts, i, Sign("["), [Lexeme(StringLiteral, "]"), Sign("]")]);
    assert [Lexeme(StringLiteral, "]"), Sign("]")] == [Lexeme(StringLiteral, "]")] + [Sign("]")];
    ShowsOneThen(ts, i + 1, Lexeme(StringLiteral, "]"), [Sign("]")]);
    ShowsFirst(ts, i + 2, [Sign("]")]);
    assert Follows(0, ts[i + 2]);
    ReadAtEveryLevel(ts, name, 0, i, ArrayLit([]), i + 2);
  }
}
