/** The recursive-descent parser with its cursor (packages/model-option-map/src/parser.ts), following the
    grammar in Expressions.  Errors are returned instead of thrown. */
module Parsers {
  import opened Tokenizer
  import opened Expressions

  /** The outcome of a method and where it left the cursor, against the grammar. */
  ghost predicate Agrees(r: SourceResult, index: nat, expected: ParseResult) {
    match expected
    case Rejected(at) => r == Error(at)
    case Parsed(e, next) => r == Ok(e) && index == next
  }

  /** What remains to be done when the last element or entry has been read. */
  function Closed(ts: seq<Token>, i: nat, value: string, e: Expr): ParseResult
    requires i < |ts|
  {
    if ts[i].value == value then Parsed(e, i + 1) else Rejected(ts[i].offset)
  }

  class Parser {
    const tokens: seq<Token>
    const variableName: string
    var index: nat

    ghost predicate Valid()
      reads this
    {
      TokenList(tokens) && index < |tokens|
    }

    constructor (tokens: seq<Token>, variableName: string)
      requires TokenList(tokens)
      ensures Valid() && this.tokens == tokens && this.variableName == variableName && index == 0
    {
      this.tokens, this.variableName, index := tokens, variableName, 0;
    }

    function Current(): (t: Token)
      requires Valid()
      reads this
      ensures t == tokens[index]
    {
      Expressions.Current(tokens, index)
    }

    /** Steps over the current token if it reads `value`, whatever kind it is. */
    method Consume(value: string) returns (consumed: bool)
      requires Valid() && value != ""
      modifies this`index
      ensures Valid()
      ensures consumed == (tokens[old(index)].value == value)
      ensures index == if consumed then old(index) + 1 else old(index)
    {
      if Current().value != value {
        return false;
      }
      index := index + 1;
      return true;
    }

    method Advance() returns (token: Token)
      requires Valid()
      modifies this`index
      ensures Valid() && token == tokens[old(index)]
      ensures index == if token.kind == Eof then old(index) else old(index) + 1
    {
      token := Current();
      if token.kind != Eof {
        index := index + 1;
      }
    }

    method Parse() returns (r: SourceResult)
      requires Valid() && index == 0
      modifies this`index
      ensures r == ParseTokens(tokens, variableName)
    {
      r := ParseConditional();
      if r.Ok? && Current().kind != Eof {
        r := Error(Current().offset);
      }
    }

    method ParseConditional() returns (r: SourceResult)
      requires Valid()
      modifies this`index
      ensures Valid() && Agrees(r, index, Expressions.Parse(tokens, variableName, 0, old(index)))
      decreases |tokens| - index, 9, 0
    {
      hide ParseTail, Expressions.ParsePrimary;
      var condition := ParseBinary(1);
      if condition.Error? {
        return condition;
      }
      var question := Consume("?");
      if !question {
        return condition;
      }
      var whenTrue := ParseConditional();
      if whenTrue.Error? {
        return whenTrue;
      }
      var at := Current().offset;
      var colon := Consume(":");
      if !colon {
        return Error(at);
      }
      var whenFalse := ParseConditional();
      if whenFalse.Error? {
        return whenFalse;
      }
      r := Ok(Conditional(condition.expr, whenTrue.expr, whenFalse.expr));
    }

    /** parseLogicalOr down to parseMultiplicative: level 1 to 6, each reading its operands one level higher. */
    method ParseBinary(level: nat) returns (r: SourceResult)
      requires Valid() && 1 <= level <= 6
      modifies this`index
      ensures Valid() && Agrees(r, index, Expressions.Parse(tokens, variableName, level, old(index)))
      decreases |tokens| - index, 9 - level, 0
    {
      hide Expressions.ParsePrimary;
      r := ParseOperand(level + 1);
      if r.Error? {
        return;
      }
      var expression := r.expr;
      while Current().kind == Operator && Current().value in Operators(level)
        invariant Valid() && old(index) < index
        invariant ParseTail(tokens, variableName, level, expression, index)
               == Expressions.Parse(tokens, variableName, level, old(index))
        decreases |tokens| - index
      {
        var operator := Advance();
        var right := ParseOperand(level + 1);
        if right.Error? {
          return right;
        }
        expression := Binary(operator.value, expression, right.expr);
      }
      r := Ok(expression);
    }

    method ParseOperand(level: nat) returns (r: SourceResult)
      requires Valid() && 2 <= level <= 7
      modifies this`index
      ensures Valid() && Agrees(r, index, Expressions.Parse(tokens, variableName, level, old(index)))
      decreases |tokens| - index, 9 - level, 1
    {
      if level == 7 {
        r := ParseUnary();
      } else {
        r := ParseBinary(level);
      }
    }

    method ParseUnary() returns (r: SourceResult)
      requires Valid()
      modifies this`index
      ensures Valid() && Agrees(r, index, Expressions.Parse(tokens, variableName, 7, old(index)))
      decreases |tokens| - index, 2, 0
    {
      hide ParseTail, Expressions.ParsePrimary;
      var token := Current();
      if token.kind == Operator && (token.value == "!" || token.value == "-" || token.value == "+") {
        var operator := Advance();
        var operand := ParseUnary();
        if operand.Error? {
          return operand;
        }
        return Ok(Unary(token.value, operand.expr));
      }
      r := ParsePrimary();
    }

    method ParsePrimary() returns (r: SourceResult)
      requires Valid()
      modifies this`index
      ensures Valid() && Agrees(r, index, Expressions.ParsePrimary(tokens, variableName, old(index)))
      decreases |tokens| - index, 1, 0
    {
      hide ParseElements, ParseEntries, SafeNumber, Expressions.Parse;
      var token := Advance();
      if token.kind == NumberLiteral {
        if !SafeNumber(token.value) {
          return Error(token.offset);
        }
        return Ok(NumberLit(token.value));
      }
      if token.kind == StringLiteral {
        return Ok(StringLit(token.value));
      }
      if token.kind == Identifier {
        if Current().value == "(" {
          return Error(Current().offset);
        }
        if token.value == variableName {
          return Ok(Input);
        }
        if token.value == "true" || token.value == "false" {
          return Ok(BoolLit(token.value == "true"));
        }
        if token.value == "null" {
          return Ok(NullLit);
        }
        return Error(token.offset);
      }
      if token.value == "(" {
        var expression := ParseConditional();
        if expression.Error? {
          return expression;
        }
        var at := Current().offset;
        var closed := Consume(")");
        return if closed then expression else Error(at);
      }
      if token.value == "[" {
        r := ParseArray();
        return;
      }
      if token.value == "{" {
        r := ParseObject();
        return;
      }
      return Error(token.offset);
    }

    /** After the opening bracket. */
    method ParseArray() returns (r: SourceResult)
      requires Valid()
      modifies this`index
      ensures Valid()
      ensures Agrees(r, index,
        if tokens[old(index)].value == "]" then Parsed(ArrayLit([]), old(index) + 1)
        else ParseElements(tokens, variableName, [], old(index)))
      decreases |tokens| - index, 10, 0
    {
      hide Expressions.Parse, Expressions.ParsePrimary;
      var elements: seq<Expr> := [];
      var empty := Consume("]");
      if empty {
        return Ok(ArrayLit([]));
      }
      var more := true;
      while more
        invariant Valid() && old(index) <= index
        invariant more ==>
          ParseElements(tokens, variableName, elements, index) == ParseElements(tokens, variableName, [], old(index))
        invariant !more ==>
          ParseElements(tokens, variableName, [], old(index)) == Closed(tokens, index, "]", ArrayLit(elements))
        decreases |tokens| - index, more
      {
        var element := ParseConditional();
        if element.Error? {
          return element;
        }
        elements := elements + [element.expr];
        more := Consume(",");
      }
      var at := Current().offset;
      var closed := Consume("]");
      return if closed then Ok(ArrayLit(elements)) else Error(at);
    }

    /** After the opening brace. */
    method ParseObject() returns (r: SourceResult)
      requires Valid()
      modifies this`index
      ensures Valid()
      ensures Agrees(r, index,
        if tokens[old(index)].value == "}" then Parsed(ObjectLit([]), old(index) + 1)
        else ParseEntries(tokens, variableName, [], old(index)))
      decreases |tokens| - index, 10, 0
    {
      hide Expressions.Parse, Expressions.ParsePrimary;
      var entries: seq<Entry> := [];
      var keys: set<string> := {};
      var empty := Consume("}");
      if empty {
        return Ok(ObjectLit([]));
      }
      var more := true;
      while more
        invariant Valid() && old(index) <= index
        invariant forall key :: key in keys <==> HasKey(entries, key)
        invariant more ==>
          ParseEntries(tokens, variableName, entries, index) == ParseEntries(tokens, variableName, [], old(index))
        invariant !more ==>
          ParseEntries(tokens, variableName, [], old(index)) == Closed(tokens, index, "}", ObjectLit(entries))
        decreases |tokens| - index, more
      {
        var key := Advance();
        if key.kind != StringLiteral {
          return Error(key.offset);
        }
        if key.value in keys {
          return Error(key.offset);
        }
        keys := keys + {key.value};
        var at := Current().offset;
        var colon := Consume(":");
        if !colon {
          return Error(at);
        }
        var value := ParseConditional();
        if value.Error? {
          return value;
        }
        KeysGrow(entries, Entry(key.value, value.expr));
        entries := entries + [Entry(key.value, value.expr)];
        more := Consume(",");
      }
      var at := Current().offset;
      var closed := Consume("}");
      return if closed then Ok(ObjectLit(entries)) else Error(at);
    }
  }

  lemma KeysGrow(entries: seq<Entry>, e: Entry)
    ensures forall key :: HasKey(entries + [e], key) <==> HasKey(entries, key) || key == e.key
  {
    forall key
      ensures HasKey(entries + [e], key) <==> HasKey(entries, key) || key == e.key
    {
      var all := entries + [e];
      if HasKey(entries, key) {
        var k :| 0 <= k < |entries| && entries[k].key == key;
        assert all[k].key == key;
      }
      assert all[|entries|].key == e.key;
    }
  }

  /** parseRestrictedCel behind tokenizeRestrictedCel. */
  method ParseRestrictedCel(source: string, option: OptionName) returns (r: SourceResult)
    ensures r == ParseSource(source, option)
  {
    var lexed := TokenizeRestrictedCel(source);
    if lexed.LexError? {
      return Error(lexed.offset);
    }
    TokenizedIsTokenList(source, 0);
    var parser := new Parser(lexed.tokens, NameOf(option));
    r := parser.Parse();
  }
}
