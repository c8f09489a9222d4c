/** The tokenizer of the restricted expression language (packages/model-option-map/src/tokenizer.ts).

    Text is a sequence of Unicode scalar values, so an escape that names a lone surrogate is rejected here. */
module Tokenizer {
  import opened Options
  import opened Numerals

  datatype Kind = Identifier | StringLiteral | NumberLiteral | Operator | Punctuation | Eof

  datatype Token = Token(kind: Kind, value: string, offset: nat, end: nat)

  datatype Lexed = Lexed(tokens: seq<Token>) | LexError(offset: nat)

  const DOUBLE_OPERATORS := {"&&", "||", "==", "!=", "<=", ">="}
  const SINGLE_OPERATORS := {"+", "-", "*", "/", "%", "!", "<", ">"}
  const PUNCTUATION := {"{", "}", "[", "]", "(", ")", ",", ":", "?", "."}

  predicate IsSpace(c: char) {
    || c == ' ' || '\t' <= c <= '\r' || c == '\U{00A0}' || c == '\U{1680}' || '\U{2000}' <= c <= '\U{200A}'
    || c == '\U{2028}' || c == '\U{2029}' || c == '\U{202F}' || c == '\U{205F}' || c == '\U{3000}' || c == '\U{FEFF}'
  }

  function TrimStart(s: string): string {
    if s != [] && IsSpace(s[0]) then TrimStart(s[1..]) else s
  }

  function TrimEnd(s: string): string {
    if s != [] && IsSpace(s[|s| - 1]) then TrimEnd(s[..|s| - 1]) else s
  }

  /** trim of JavaScript: white space goes from both ends. */
  function Trim(s: string): string {
    TrimEnd(TrimStart(s))
  }

  /** What trimming leaves: all the white space at both ends is gone, and nothing else. */
  lemma {:induction false} TrimIsTrim(s: string) returns (i: nat, j: nat)
    ensures i <= j <= |s| && Trim(s) == s[i..j]
    ensures (forall k :: 0 <= k < i ==> IsSpace(s[k])) && (forall k :: j <= k < |s| ==> IsSpace(s[k]))
    ensures i < j ==> !IsSpace(s[i]) && !IsSpace(s[j - 1])
  {
    i := TrimStartIs(s);
    var n := TrimEndIs(TrimStart(s));
    j := i + n;
    if i < j {
      assert s[i] == TrimStart(s)[0];
    }
  }

  lemma {:induction false} TrimStartIs(s: string) returns (i: nat)
    ensures i <= |s| && TrimStart(s) == s[i..] && (forall k :: 0 <= k < i ==> IsSpace(s[k])) && (i < |s| ==> !IsSpace(s[i]))
  {
    hide IsSpace;
    if s != [] && IsSpace(s[0]) {
      i := TrimStartIs(s[1..]);
      assert s[1..][i..] == s[i + 1..];
      forall k | 0 < k < i + 1 ensures IsSpace(s[k]) {
        assert s[k] == s[1..][k - 1];
      }
      i := i + 1;
    } else {
      i := 0;
    }
  }

  lemma {:induction false} TrimEndIs(s: string) returns (j: nat)
    ensures j <= |s| && TrimEnd(s) == s[..j] && (forall k :: j <= k < |s| ==> IsSpace(s[k])) && (j > 0 ==> !IsSpace(s[j - 1]))
  {
    hide IsSpace;
    if s != [] && IsSpace(s[|s| - 1]) {
      j := TrimEndIs(s[..|s| - 1]);
      assert s[..|s| - 1][..j] == s[..j];
      forall k | j <= k < |s| - 1 ensures IsSpace(s[k]) {
        assert s[k] == s[..|s| - 1][k];
      }
    } else {
      j := |s|;
    }
  }

  predicate IsWordStart(c: char) {
    'A' <= c <= 'Z' || 'a' <= c <= 'z' || c == '_'
  }

  predicate IsWordPart(c: char) {
    IsWordStart(c) || IsDigit(c)
  }

  function WordEnd(s: string, i: nat): (j: nat)
    requires i <= |s|
    ensures i <= j <= |s|
    decreases |s| - i
  {
    if i < |s| && IsWordPart(s[i]) then WordEnd(s, i + 1) else i
  }

  function SimpleEscape(c: char): Option<char> {
    if c == '\'' || c == '"' || c == '\\' then Some(c)
    else if c == 'b' then Some('\U{0008}')
    else if c == 'f' then Some('\U{000C}')
    else if c == 'n' then Some('\n')
    else if c == 'r' then Some('\r')
    else if c == 't' then Some('\t')
    else None
  }

  function HexDigit(c: char): Option<nat> {
    if IsDigit(c) then Some(c as int - '0' as int)
    else if 'a' <= c <= 'f' then Some(c as int - 'a' as int + 10)
    else if 'A' <= c <= 'F' then Some(c as int - 'A' as int + 10)
    else None
  }

  /** The character named by the four hexadecimal digits at i, if they are there and name one. */
  function UnicodeEscape(s: string, i: nat): Option<char> {
    if i + 4 > |s| then None
    else
      var a, b, c, d := HexDigit(s[i]), HexDigit(s[i + 1]), HexDigit(s[i + 2]), HexDigit(s[i + 3]);
      if a == None || b == None || c == None || d == None then None
      else
        var code := ((a.value * 16 + b.value) * 16 + c.value) * 16 + d.value;
        if 0 <= code < 0xD800 || 0xE000 <= code < 0x11_0000 then Some(code as char) else None
  }

  datatype Chars = Chars(value: string, end: nat) | BadChars(offset: nat)

  /** The rest of a string literal that started at `start`, from the cursor on, with `value` read so far. */
  function ReadChars(s: string, start: nat, quote: char, cursor: nat, value: string): (r: Chars)
    requires start < cursor <= |s|
    ensures r.Chars? ==> cursor < r.end <= |s|
    decreases |s| - cursor
  {
    if cursor == |s| then BadChars(start)
    else
      var c := s[cursor];
      if c == quote then Chars(value, cursor + 1)
      else if c == '\n' || c == '\r' then BadChars(start)
      else if c != '\\' then ReadChars(s, start, quote, cursor + 1, value + [c])
      else if cursor + 1 == |s| then BadChars(cursor)
      else if SimpleEscape(s[cursor + 1]).Some? then
        ReadChars(s, start, quote, cursor + 2, value + [SimpleEscape(s[cursor + 1]).value])
      else if s[cursor + 1] == 'u' then
        match UnicodeEscape(s, cursor + 2)
        case None => BadChars(cursor)
        case Some(u) => ReadChars(s, start, quote, cursor + 6, value + [u])
      else BadChars(cursor)
  }

  datatype Piece = Blank | Piece(token: Token) | Unknown(offset: nat)

  /** What starts at the given position. */
  function PieceAt(s: string, offset: nat): (r: Piece)
    requires offset < |s|
    ensures r.Piece? ==> r.token.offset == offset < r.token.end <= |s| && r.token.kind != Eof
  {
    var c := s[offset];
    if IsSpace(c) then Blank
    else if c == '\'' || c == '"' then
      match ReadChars(s, offset, c, offset + 1, "")
      case Chars(value, end) => Piece(Token(StringLiteral, value, offset, end))
      case BadChars(at) => Unknown(at)
    else if IsDigit(c) then
      var end := NumberEnd(s, offset);
      Piece(Token(NumberLiteral, s[offset..end], offset, end))
    else if IsWordStart(c) then
      var end := WordEnd(s, offset + 1);
      Piece(Token(Identifier, s[offset..end], offset, end))
    else if offset + 2 <= |s| && s[offset..offset + 2] in DOUBLE_OPERATORS then
      Piece(Token(Operator, s[offset..offset + 2], offset, offset + 2))
    else if [c] in SINGLE_OPERATORS then Piece(Token(Operator, [c], offset, offset + 1))
    else if [c] in PUNCTUATION then Piece(Token(Punctuation, [c], offset, offset + 1))
    else Unknown(offset)
  }

  /** All tokens from `offset` to the end of the text, and the end marker. */
  function TokenizeFrom(s: string, offset: nat): Lexed
    requires offset <= |s|
    decreases |s| - offset
  {
    if offset == |s| then Lexed([Token(Eof, "", |s|, |s|)])
    else
      match PieceAt(s, offset)
      case Blank => TokenizeFrom(s, offset + 1)
      case Unknown(at) => LexError(at)
      case Piece(token) =>
        match TokenizeFrom(s, token.end)
        case LexError(at) => LexError(at)
        case Lexed(rest) => Lexed([token] + rest)
  }

  function Tokenize(s: string): Lexed {
    TokenizeFrom(s, 0)
  }

  /** What the parser may rely on: the list ends with an end marker, end markers are empty, numbers are numbers. */
  ghost predicate TokenList(ts: seq<Token>) {
    && ts != [] && ts[|ts| - 1].kind == Eof
    && (forall k :: 0 <= k < |ts| && ts[k].kind == Eof ==> ts[k].value == "")
    && (forall k :: 0 <= k < |ts| && ts[k].kind == NumberLiteral ==> IsNumber(ts[k].value))
  }

  lemma {:induction false} TokenizedIsTokenList(s: string, offset: nat)
    requires offset <= |s|
    ensures TokenizeFrom(s, offset).Lexed? ==> TokenList(TokenizeFrom(s, offset).tokens)
    decreases |s| - offset
  {
    hide NumberEnd, IsNumber, ReadChars, WordEnd, IsSpace;
    if offset < |s| {
      match PieceAt(s, offset)
      case Blank => TokenizedIsTokenList(s, offset + 1);
      case Unknown(at) =>
      case Piece(token) =>
        TokenizedIsTokenList(s, token.end);
        if token.kind == NumberLiteral {
          NumberPiece(s, offset);
        }
    }
  }

  lemma NumberPiece(s: string, offset: nat)
    requires offset < |s| && PieceAt(s, offset).Piece? && PieceAt(s, offset).token.kind == NumberLiteral
    ensures IsNumber(PieceAt(s, offset).token.value)
  {
    MatchedNumberIsNumber(s, offset);
  }

  // ---------- spelling tokens out ----------

  /** A token without its position. */
  datatype Lexeme = Lexeme(kind: Kind, value: string)

  function Plain(ts: seq<Token>): (r: seq<Lexeme>)
    ensures |r| == |ts| && forall k :: 0 <= k < |ts| ==> r[k] == Lexeme(ts[k].kind, ts[k].value)
  {
    seq(|ts|, k requires 0 <= k < |ts| => Lexeme(ts[k].kind, ts[k].value))
  }

  predicate IsWord(w: string) {
    w != [] && IsWordStart(w[0]) && forall k :: 0 <= k < |w| ==> IsWordPart(w[k])
  }

  predicate Spellable(l: Lexeme) {
    match l.kind
    case Identifier => IsWord(l.value)
    case StringLiteral => true
    case NumberLiteral => IsNumber(l.value)
    case Operator => l.value in DOUBLE_OPERATORS || l.value in SINGLE_OPERATORS
    case Punctuation => l.value in PUNCTUATION
    case Eof => false
  }

  /** Tokens in the order of the text, without overlap, each spelled as its kind demands, and one end marker behind
      them. */
  ghost predicate WellFormed(ts: seq<Token>, from: nat) {
    && ts != [] && from <= ts[0].offset && ts[|ts| - 1].kind == Eof && ts[|ts| - 1].value == ""
    && forall k :: 0 <= k < |ts| - 1 ==>
         Spellable(Lexeme(ts[k].kind, ts[k].value)) && ts[k].offset < ts[k].end <= ts[k + 1].offset
  }

  /** What the tokenizer returns is well formed, for every text that it accepts. */
  lemma {:induction false} TokenizedIsWellFormed(s: string, offset: nat)
    requires offset <= |s|
    ensures TokenizeFrom(s, offset).Lexed? ==> WellFormed(TokenizeFrom(s, offset).tokens, offset)
    decreases |s| - offset
  {
    hide PieceAt, Spellable;
    if offset < |s| {
      match PieceAt(s, offset)
      case Blank => TokenizedIsWellFormed(s, offset + 1);
      case Unknown(at) =>
      case Piece(token) =>
        TokenizedIsWellFormed(s, token.end);
        PieceIsSpellable(s, offset);
    }
  }

  lemma PieceIsSpellable(s: string, offset: nat)
    requires offset < |s| && PieceAt(s, offset).Piece?
    ensures var token := PieceAt(s, offset).token; Spellable(Lexeme(token.kind, token.value))
  {
    hide ReadChars, IsNumber, IsSpace;
    var token := PieceAt(s, offset).token;
    if token.kind == NumberLiteral {
      NumberPiece(s, offset);
    } else if token.kind == Identifier {
      WordsOnly(s, offset + 1);
    }
  }

  lemma {:induction false} WordsOnly(s: string, i: nat)
    requires i <= |s|
    ensures forall k :: i <= k < WordEnd(s, i) ==> IsWordPart(s[k])
    decreases |s| - i
  {
    if i < |s| && IsWordPart(s[i]) {
      WordsOnly(s, i + 1);
    }
  }

  function EscapedChar(c: char): string {
    if c == '"' then "\\\"" else if c == '\\' then "\\\\" else if c == '\n' then "\\n" else if c == '\r' then "\\r" else [c]
  }

  function Escaped(value: string): string {
    if value == [] then [] else EscapedChar(value[0]) + Escaped(value[1..])
  }

  function SpellOne(l: Lexeme): string {
    if l.kind == StringLiteral then ['"'] + Escaped(l.value) + ['"'] else l.value
  }

  /** Every token followed by a blank. */
  function Spell(ls: seq<Lexeme>): string {
    if ls == [] then [] else SpellOne(ls[0]) + [' '] + Spell(ls[1..])
  }

  lemma {:induction false} WordEndStands(s: string, i: nat, text: string, k: nat)
    requires Stands(s, i, text) && k <= |text| && forall n :: k <= n < |text| ==> IsWordPart(text[n])
    ensures WordEnd(s, i + k) == i + |text|
    decreases |text| - k
  {
    if k < |text| {
      WordEndStands(s, i, text, k + 1);
    }
  }

  /** One escaped character is read back. */
  lemma EscapedCharReadsBack(s: string, start: nat, cursor: nat, value: string, c: char)
    requires start < cursor && cursor + |EscapedChar(c)| < |s|
    requires s[cursor] == EscapedChar(c)[0] && (|EscapedChar(c)| == 2 ==> s[cursor + 1] == EscapedChar(c)[1])
    ensures ReadChars(s, start, '"', cursor, value)
         == ReadChars(s, start, '"', cursor + |EscapedChar(c)|, value + [c])
  {
  }

  /** Reading undoes escaping. */
  lemma {:induction false} EscapedReadsBack(s: string, start: nat, cursor: nat, value: string, rest: string)
    requires start < cursor && cursor + |Escaped(rest)| < |s|
    requires s[cursor..cursor + |Escaped(rest)|] == Escaped(rest) && s[cursor + |Escaped(rest)|] == '"'
    ensures ReadChars(s, start, '"', cursor, value) == Chars(value + rest, cursor + |Escaped(rest)| + 1)
    decreases |rest|
  {
    hide EscapedChar, Escaped, ReadChars;
    var text := Escaped(rest);
    EscapedInParts(rest);
    if rest == [] {
      ClosingQuote(s, start, cursor, value);
      assert value + rest == value;
    } else {
      var c, head, tail := rest[0], EscapedChar(rest[0]), Escaped(rest[1..]);
      EscapedCharLength(c);
      SliceSplits(s, cursor, head, tail);
      EscapedCharReadsBack(s, start, cursor, value, c);
      EscapedReadsBack(s, start, cursor + |head|, value + [c], rest[1..]);
      assert value + [c] + rest[1..] == value + rest;
    }
  }

  lemma EscapedInParts(value: string)
    ensures Escaped(value) == if value == [] then [] else EscapedChar(value[0]) + Escaped(value[1..])
  {
  }

  lemma ClosingQuote(s: string, start: nat, cursor: nat, value: string)
    requires start < cursor < |s| && s[cursor] == '"'
    ensures ReadChars(s, start, '"', cursor, value) == Chars(value, cursor + 1)
  {
  }

  lemma EscapedCharLength(c: char)
    ensures 1 <= |EscapedChar(c)| <= 2
  {
  }

  lemma WordPiece(s: string, i: nat, text: string)
    requires IsWord(text) && Stands(s, i, text)
    ensures PieceAt(s, i) == Piece(Token(Identifier, text, i, i + |text|))
  {
    hide WordEnd;
    WordEndStands(s, i, text, 1);
  }

  lemma NumeralPiece(s: string, i: nat, text: string)
    requires IsNumber(text) && Stands(s, i, text)
    ensures PieceAt(s, i) == Piece(Token(NumberLiteral, text, i, i + |text|))
  {
    NumberEndStands(s, i, text);
    hide NumberEnd, IsNumber;
  }

  /** Where two texts stand one behind the other. */
  lemma SliceSplits(s: string, i: nat, a: string, b: string)
    requires i + |a + b| <= |s| && s[i..i + |a + b|] == a + b
    ensures forall k :: 0 <= k < |a| ==> s[i + k] == a[k]
    ensures s[i..i + |a|] == a && s[i + |a|..i + |a| + |b|] == b
  {
    var text := a + b;
    forall k | 0 <= k < |text| ensures s[i + k] == text[k] {
      assert s[i..i + |text|][k] == s[i + k];
    }
    forall k | 0 <= k < |b| ensures s[i + |a| + k] == b[k] {
      assert text[|a| + k] == b[k] && s[i + (|a| + k)] == text[|a| + k];
    }
  }

  lemma SliceOfSlice(s: string, i: nat, length: nat, a: nat, b: nat)
    requires i + length <= |s| && a <= b <= length
    ensures s[i..i + length][a..b] == s[i + a..i + b]
  {
    var piece := s[i..i + length];
    forall k | 0 <= k < b - a ensures piece[a..b][k] == s[i + a..i + b][k] {
      assert piece[a + k] == s[i + (a + k)];
    }
  }

  lemma StringPiece(s: string, i: nat, value: string)
    requires Stands(s, i, ['"'] + Escaped(value) + ['"'])
    ensures PieceAt(s, i) == Piece(Token(StringLiteral, value, i, i + |Escaped(value)| + 2))
  {
    hide ReadChars, Escaped;
    var text, inner := ['"'] + Escaped(value) + ['"'], Escaped(value);
    assert s[i] == s[i..i + |text|][0] == '"';
    assert s[i + 1 + |inner|] == s[i..i + |text|][|inner| + 1] == '"';
    SliceOfSlice(s, i, |text|, 1, |inner| + 1);
    assert text[1..|inner| + 1] == inner;
    EscapedReadsBack(s, i, i + 1, "", value);
    assert "" + value == value;
  }

  lemma SymbolPiece(s: string, i: nat, text: string)
    requires Stands(s, i, text)
    requires text in DOUBLE_OPERATORS || text in SINGLE_OPERATORS || text in PUNCTUATION
    ensures PieceAt(s, i) == Piece(Token(if text in PUNCTUATION then Punctuation else Operator, text, i, i + |text|))
  {
    hide ReadChars, NumberEnd, WordEnd, UnicodeEscape, SimpleEscape;
    if |text| == 1 {
      assert text == [s[i]];
      assert s[i..i + 2] == [s[i], ' '];
    }
  }

  /** One spelled-out token is read back. */
  lemma SpelledPiece(s: string, i: nat, l: Lexeme)
    requires Spellable(l) && Stands(s, i, SpellOne(l))
    ensures PieceAt(s, i) == Piece(Token(l.kind, l.value, i, i + |SpellOne(l)|))
  {
    hide PieceAt, IsNumber, IsWord, Escaped;
    match l.kind
    case Identifier => WordPiece(s, i, l.value);
    case StringLiteral => StringPiece(s, i, l.value);
    case NumberLiteral => NumeralPiece(s, i, l.value);
    case Operator => SymbolPiece(s, i, l.value);
    case Punctuation => SymbolPiece(s, i, l.value);
  }

  /** Tokenizing a spelled-out token list gives that list back. */
  lemma {:induction false} SpellingReadsBack(s: string, offset: nat, ls: seq<Lexeme>)
    requires offset <= |s| && s[offset..] == Spell(ls)
    requires forall k :: 0 <= k < |ls| ==> Spellable(ls[k])
    ensures TokenizeFrom(s, offset).Lexed?
    ensures Plain(TokenizeFrom(s, offset).tokens) == ls + [Lexeme(Eof, "")]
    decreases |ls|
  {
    hide PieceAt, Spellable, SpellOne, Plain;
    if ls == [] {
      assert offset == |s|;
    } else {
      var text, rest := SpellOne(ls[0]), Spell(ls[1..]);
      var end := offset + |text|;
      assert s[offset..] == text + [' '] + rest;
      assert s[offset..end] == s[offset..][..|text|] == text;
      assert s[end] == s[offset..][|text|] == ' ';
      assert s[end + 1..] == s[offset..][|text| + 1..] == rest;
      assert Stands(s, offset, text);
      SpelledPiece(s, offset, ls[0]);
      assert TokenizeFrom(s, end) == TokenizeFrom(s, end + 1) by { BlankPiece(s, end); }
      SpellingReadsBack(s, end + 1, ls[1..]);
      assert [ls[0]] + (ls[1..] + [Lexeme(Eof, "")]) == ls + [Lexeme(Eof, "")];
    }
  }

  lemma BlankPiece(s: string, i: nat)
    requires i < |s| && s[i] == ' '
    ensures PieceAt(s, i) == Blank
  {
  }

  // ---------- the code ----------

  method ReadWhileWord(source: string, offset: nat) returns (cursor: nat)
    requires offset <= |source|
    ensures cursor == WordEnd(source, offset)
  {
    cursor := offset;
    while cursor < |source| && IsWordPart(source[cursor])
      invariant offset <= cursor <= |source|
      invariant WordEnd(source, offset) == WordEnd(source, cursor)
    {
      cursor := cursor + 1;
    }
  }

  method ReadString(source: string, offset: nat, quote: char) returns (r: Chars)
    requires offset < |source|
    ensures r == ReadChars(source, offset, quote, offset + 1, "")
  {
    var cursor, value := offset + 1, "";
    while cursor < |source|
      invariant offset < cursor <= |source|
      invariant ReadChars(source, offset, quote, offset + 1, "") == ReadChars(source, offset, quote, cursor, value)
    {
      var character := source[cursor];
      if character == quote {
        return Chars(value, cursor + 1);
      }
      if character == '\n' || character == '\r' {
        return BadChars(offset);
      }
      if character != '\\' {
        value := value + [character];
        cursor := cursor + 1;
        continue;
      }
      var escapeOffset := cursor;
      cursor := cursor + 1;
      if cursor == |source| {
        return BadChars(escapeOffset);
      }
      var escaped := source[cursor];
      var simpleEscape := SimpleEscape(escaped);
      if simpleEscape.Some? {
        value := value + [simpleEscape.value];
        cursor := cursor + 1;
        continue;
      }
      if escaped != 'u' {
        return BadChars(escapeOffset);
      }
      var unit := UnicodeEscape(source, cursor + 1);
      if unit.None? {
        return BadChars(escapeOffset);
      }
      value := value + [unit.value];
      cursor := cursor + 5;
    }
    return BadChars(offset);
  }

  /** tokenizeRestrictedCel. */
  method TokenizeRestrictedCel(source: string) returns (r: Lexed)
    ensures r == Tokenize(source)
  {
    var tokens: seq<Token> := [];
    var offset := 0;
    while offset < |source|
      invariant 0 <= offset <= |source|
      invariant Tokenize(source) == Prepend(tokens, TokenizeFrom(source, offset))
    {
      hide ReadChars, WordEnd, NumberEnd, IsSpace, IsWordStart, IsDigit, Tokenize, TokenizeFrom;
      TokenStep(source, offset, tokens);
      var character := source[offset];
      if IsSpace(character) {
        offset := offset + 1;
        continue;
      }
      var token: Token;
      if character == '\'' || character == '"' {
        var chars := ReadString(source, offset, character);
        if chars.BadChars? {
          return LexError(chars.offset);
        }
        token := Token(StringLiteral, chars.value, offset, chars.end);
      } else if IsDigit(character) {
        var end := NumberEnd(source, offset);
        token := Token(NumberLiteral, source[offset..end], offset, end);
      } else if IsWordStart(character) {
        var end := ReadWhileWord(source, offset + 1);
        token := Token(Identifier, source[offset..end], offset, end);
      } else {
        var pair := if offset + 2 <= |source| then source[offset..offset + 2] else [character];
        if pair in DOUBLE_OPERATORS {
          token := Token(Operator, pair, offset, offset + 2);
        } else if [character] in SINGLE_OPERATORS {
          token := Token(Operator, [character], offset, offset + 1);
        } else if [character] in PUNCTUATION {
          token := Token(Punctuation, [character], offset, offset + 1);
        } else {
          return LexError(offset);
        }
      }
      assert PieceAt(source, offset) == Piece(token);
      tokens := tokens + [token];
      offset := token.end;
    }
    return Lexed(tokens + [Token(Eof, "", |source|, |source|)]);
  }

  function Prepend(tokens: seq<Token>, r: Lexed): Lexed {
    if r.Lexed? then Lexed(tokens + r.tokens) else r
  }

  /** One turn of the loop. */
  lemma TokenStep(s: string, offset: nat, tokens: seq<Token>)
    requires offset < |s|
    ensures match PieceAt(s, offset)
      case Blank => TokenizeFrom(s, offset) == TokenizeFrom(s, offset + 1)
      case Unknown(at) => TokenizeFrom(s, offset) == LexError(at)
      case Piece(token) =>
        Prepend(tokens, TokenizeFrom(s, offset)) == Prepend(tokens + [token], TokenizeFrom(s, token.end))
  {
    hide PieceAt;
  }
}
