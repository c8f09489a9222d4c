/** What the tokens of a text are, written out rule by rule, and the proof that the tokenizer finds exactly them
    (packages/model-option-map/src/tokenizer.ts:22-141). */
module Lexing {
  import opened Options
  import opened Numerals
  import opened Tokenizer
  import NumeralForms

  // ---------- string literals ----------

  /** What a backslash and this character stand for. */
  ghost predicate StandsFor(escape: char, c: char) {
    match escape
    case '\'' => c == '\''
    case '"' => c == '"'
    case '\\' => c == '\\'
    case 'b' => c == '\U{0008}'
    case 'f' => c == '\U{000C}'
    case 'n' => c == '\U{000A}'
    case 'r' => c == '\U{000D}'
    case 't' => c == '\U{0009}'
    case _ => false
  }

  /** A hexadecimal digit of this worth. */
  ghost predicate IsHex(c: char, worth: nat) {
    worth < 16 && (c == "0123456789abcdef"[worth] || c == "0123456789ABCDEF"[worth])
  }

  /** Four hexadecimal digits, which name the character. */
  ghost predicate Names(digits: string, c: char) {
    |digits| == 4 && exists h, i, j, k :: NamesAs(digits, h, i, j, k, c)
  }

  ghost predicate NamesAs(digits: string, h: nat, i: nat, j: nat, k: nat, c: char)
    requires |digits| == 4
  {
    && IsHex(digits[0], h) && IsHex(digits[1], i) && IsHex(digits[2], j) && IsHex(digits[3], k)
    && c as int == 4096 * h + 256 * i + 16 * j + k
  }

  /** Between quotes of this kind, `raw` reads as `value`. */
  ghost predicate Reads(quote: char, raw: string, value: string)
    decreases |raw|
  {
    if raw == "" then value == ""
    else if value == "" then false
    else if raw[0] != '\\' then
      raw[0] != quote && raw[0] != '\n' && raw[0] != '\r' && value[0] == raw[0] && Reads(quote, raw[1..], value[1..])
    else
      || (|raw| >= 2 && StandsFor(raw[1], value[0]) && Reads(quote, raw[2..], value[1..]))
      || (|raw| >= 6 && raw[1] == 'u' && Names(raw[2..6], value[0]) && Reads(quote, raw[6..], value[1..]))
  }

  lemma EscapeIff(escape: char, c: char)
    ensures SimpleEscape(escape) == Some(c) <==> StandsFor(escape, c)
  {
  }

  lemma HexIff(c: char, worth: nat)
    ensures HexDigit(c) == Some(worth) <==> IsHex(c, worth)
  {
  }

  lemma UnicodeIff(s: string, i: nat, c: char)
    requires i <= |s|
    ensures UnicodeEscape(s, i) == Some(c) <==> i + 4 <= |s| && Names(s[i..i + 4], c)
  {
    hide HexDigit, IsHex;
    if i + 4 <= |s| {
      var digits := s[i..i + 4];
      assert digits[0] == s[i] && digits[1] == s[i + 1] && digits[2] == s[i + 2] && digits[3] == s[i + 3];
      if UnicodeEscape(s, i) == Some(c) {
        var h, j, k, m := HexDigit(s[i]).value, HexDigit(s[i + 1]).value, HexDigit(s[i + 2]).value, HexDigit(s[i + 3]).value;
        HexIff(digits[0], h);
        HexIff(digits[1], j);
        HexIff(digits[2], k);
        HexIff(digits[3], m);
        assert NamesAs(digits, h, j, k, m, c);
      }
      if Names(digits, c) {
        var h: nat, j: nat, k: nat, m: nat :| NamesAs(digits, h, j, k, m, c);
        HexIff(digits[0], h);
        HexIff(digits[1], j);
        HexIff(digits[2], k);
        HexIff(digits[3], m);
        NoSurrogate(c);
        assert c as int as char == c;
      }
    }
  }

  lemma NoSurrogate(c: char)
    ensures 0 <= c as int < 0xD800 || 0xE000 <= c as int < 0x11_0000
  {
  }

  /** What has been read stays at the front. */
  lemma {:induction false} ReadCharsGrows(s: string, start: nat, quote: char, cursor: nat, value: string)
    requires start < cursor <= |s|
    ensures var r := ReadChars(s, start, quote, cursor, value); r.Chars? ==> value <= r.value
    decreases |s| - cursor
  {
    hide SimpleEscape, UnicodeEscape;
    if cursor < |s| {
      var c := s[cursor];
      if c == quote || c == '\n' || c == '\r' {
      } else if c != '\\' {
        ReadCharsGrows(s, start, quote, cursor + 1, value + [c]);
      } else if cursor + 1 < |s| {
        if SimpleEscape(s[cursor + 1]).Some? {
          ReadCharsGrows(s, start, quote, cursor + 2, value + [SimpleEscape(s[cursor + 1]).value]);
        } else if s[cursor + 1] == 'u' && UnicodeEscape(s, cursor + 2).Some? {
          UnicodeIff(s, cursor + 2, UnicodeEscape(s, cursor + 2).value);
          ReadCharsGrows(s, start, quote, cursor + 6, value + [UnicodeEscape(s, cursor + 2).value]);
        }
      }
    }
  }

  /** The literal goes on from the cursor to its closing quote before `end`. */
  ghost predicate GoesOn(s: string, quote: char, cursor: nat, end: nat, more: string) {
    cursor < end <= |s| && s[end - 1] == quote && Reads(quote, s[cursor..end - 1], more)
  }

  /** The rest of a string literal is found exactly if it is there: up to the first closing quote that is not escaped. */
  lemma {:induction false} ReadCharsIff(s: string, start: nat, quote: char, cursor: nat, value: string, end: nat, more: string)
    requires start < cursor <= |s| && (quote == '"' || quote == '\'')
    ensures ReadChars(s, start, quote, cursor, value) == Chars(value + more, end) <==> GoesOn(s, quote, cursor, end, more)
    decreases |s| - cursor, 1
  {
    hide SimpleEscape, UnicodeEscape, StandsFor, Names;
    if cursor < |s| {
      var c := s[cursor];
      if c == quote || c == '\n' || c == '\r' {
        EndsHere(s, start, quote, cursor, value, end, more);
      } else if c != '\\' {
        OneMoreChar(s, start, quote, cursor + 1, value, c, end, more);
        PlainGoesOn(s, quote, cursor, end, more);
      } else {
        EscapeGoesOn(s, start, quote, cursor, value, end, more);
      }
    }
  }

  lemma EndsHere(s: string, start: nat, quote: char, cursor: nat, value: string, end: nat, more: string)
    requires start < cursor < |s| && (quote == '"' || quote == '\'') && (s[cursor] == quote || s[cursor] == '\n' || s[cursor] == '\r')
    ensures ReadChars(s, start, quote, cursor, value) == Chars(value + more, end) <==> GoesOn(s, quote, cursor, end, more)
  {
    hide StandsFor, Names;
    if GoesOn(s, quote, cursor, end, more) {
      assert value + "" == value;
    }
    assert value + more == value <==> more == "" by { SameLength(value, more); }
    assert end == cursor + 1 ==> s[cursor..end - 1] == "";
  }

  lemma SameLength(value: string, more: string)
    ensures value + more == value <==> more == ""
  {
    assert |value + more| == |value| + |more|;
  }

  lemma FirstBehind(value: string, c: char, more: string)
    ensures value + [c] <= value + more ==> more != "" && more[0] == c
  {
    if value + [c] <= value + more {
      assert (value + [c])[|value|] == (value + more)[|value|];
    }
  }

  lemma {:induction false} OneMoreChar(s: string, start: nat, quote: char, cursor: nat, value: string, c: char, end: nat, more: string)
    requires start < cursor <= |s| && (quote == '"' || quote == '\'')
    ensures ReadChars(s, start, quote, cursor, value + [c]) == Chars(value + more, end) <==>
      more != "" && more[0] == c && GoesOn(s, quote, cursor, end, more[1..])
    decreases |s| - cursor, 2
  {
    hide ReadChars, GoesOn;
    ReadCharsGrows(s, start, quote, cursor, value + [c]);
    if more != "" && more[0] == c {
      ReadCharsIff(s, start, quote, cursor, value + [c], end, more[1..]);
      assert value + [c] + more[1..] == value + more;
    } else {
      FirstBehind(value, c, more);
    }
  }

  lemma PlainGoesOn(s: string, quote: char, cursor: nat, end: nat, more: string)
    requires cursor < |s| && s[cursor] != quote && s[cursor] != '\n' && s[cursor] != '\r' && s[cursor] != '\\'
    ensures GoesOn(s, quote, cursor, end, more) <==> more != "" && more[0] == s[cursor] && GoesOn(s, quote, cursor + 1, end, more[1..])
  {
    hide StandsFor, Names;
    if cursor + 1 < end <= |s| {
      var raw := s[cursor..end - 1];
      assert raw[1..] == s[cursor + 1..end - 1];
    }
  }

  lemma {:induction false} EscapeGoesOn(s: string, start: nat, quote: char, cursor: nat, value: string, end: nat, more: string)
    requires start < cursor < |s| && (quote == '"' || quote == '\'') && s[cursor] == '\\'
    ensures ReadChars(s, start, quote, cursor, value) == Chars(value + more, end) <==> GoesOn(s, quote, cursor, end, more)
    decreases |s| - cursor, 0
  {
    hide SimpleEscape, UnicodeEscape, StandsFor, Names, GoesOn;
    if cursor + 1 == |s| {
      NothingBehind(s, quote, cursor, end, more);
    } else {
      var e := s[cursor + 1];
      EscapedGoesOn(s, quote, cursor, end, more);
      NoTwoMeanings(e);
      if SimpleEscape(e).Some? {
        OneMoreChar(s, start, quote, cursor + 2, value, SimpleEscape(e).value, end, more);
      } else if e == 'u' {
        NamesOne(s, cursor + 2);
        if UnicodeEscape(s, cursor + 2).Some? {
          OneMoreChar(s, start, quote, cursor + 6, value, UnicodeEscape(s, cursor + 2).value, end, more);
        }
      }
    }
  }

  lemma NothingBehind(s: string, quote: char, cursor: nat, end: nat, more: string)
    requires cursor + 1 == |s| && s[cursor] == '\\' && quote != '\\'
    ensures !GoesOn(s, quote, cursor, end, more)
  {
  }

  lemma NoTwoMeanings(e: char)
    ensures forall c :: StandsFor(e, c) <==> SimpleEscape(e) == Some(c)
    ensures e == 'u' ==> SimpleEscape(e) == None
  {
    forall c ensures StandsFor(e, c) <==> SimpleEscape(e) == Some(c) {
      EscapeIff(e, c);
    }
  }

  lemma NamesOne(s: string, i: nat)
    requires i <= |s|
    ensures UnicodeEscape(s, i).Some? ==> i + 4 <= |s|
    ensures i + 4 <= |s| ==> forall c :: Names(s[i..i + 4], c) <==> UnicodeEscape(s, i) == Some(c)
  {
    hide Names;
    if i + 4 <= |s| {
      forall c ensures Names(s[i..i + 4], c) <==> UnicodeEscape(s, i) == Some(c) {
        UnicodeIff(s, i, c);
      }
    }
  }

  /** Behind a backslash there is an escape of one character, or u and four digits. */
  lemma EscapedGoesOn(s: string, quote: char, cursor: nat, end: nat, more: string)
    requires cursor + 1 < |s| && s[cursor] == '\\' && quote != '\\'
    ensures GoesOn(s, quote, cursor, end, more) <==>
      more != "" &&
      (|| (StandsFor(s[cursor + 1], more[0]) && GoesOn(s, quote, cursor + 2, end, more[1..]))
       || (s[cursor + 1] == 'u' && cursor + 6 <= |s| && Names(s[cursor + 2..cursor + 6], more[0])
           && GoesOn(s, quote, cursor + 6, end, more[1..])))
  {
    hide StandsFor, Names;
    if cursor < end <= |s| {
      var raw := s[cursor..end - 1];
      if cursor + 2 < end {
        assert raw[1] == s[cursor + 1] && raw[2..] == s[cursor + 2..end - 1];
      }
      if cursor + 6 < end {
        SliceOfSlice(s, cursor, end - 1 - cursor, 2, 6);
        assert raw[6..] == s[cursor + 6..end - 1];
      }
    }
  }

  // ---------- tokens ----------

  /** What a token says about the text at its place: the longest word or number that begins there, the string between
      matching quotes, or a sign, of which the longer goes first. */
  ghost predicate Says(s: string, t: Token) {
    t.offset < t.end <= |s| &&
    var text := s[t.offset..t.end];
    match t.kind
    case Identifier => t.value == text && IsIdentifier(text) && (t.end < |s| ==> !GoesIntoWord(s[t.end]))
    case NumberLiteral =>
      t.value == text && IsNumeral(text) && forall j :: t.end < j <= |s| ==> !IsNumeral(s[t.offset..j])
    case StringLiteral =>
      t.offset + 1 < t.end && (text[0] == '"' || text[0] == '\'') && GoesOn(s, text[0], t.offset + 1, t.end, t.value)
    case Operator =>
      t.value == text && (IsPair(text) || (text in {"+", "-", "*", "/", "%", "!", "<", ">"} && !PairAt(s, t.offset)))
    case Punctuation => t.value == text && text in {"{", "}", "[", "]", "(", ")", ",", ":", "?", "."}
    case Eof => false
  }

  /** Letters of the alphabet, digits and the underscore; no digit in front. */
  ghost predicate IsIdentifier(text: string) {
    text != "" && !('0' <= text[0] <= '9') && forall k :: 0 <= k < |text| ==> GoesIntoWord(text[k])
  }

  ghost predicate GoesIntoWord(c: char) {
    'a' <= c <= 'z' || 'A' <= c <= 'Z' || c == '_' || '0' <= c <= '9'
  }

  lemma WordIsIdentifier(text: string)
    ensures IsWord(text) <==> IsIdentifier(text)
    ensures forall c :: IsWordPart(c) <==> GoesIntoWord(c)
  {
  }

  /** White space and line ends, by their code points. */
  ghost predicate IsBlank(c: char) {
    var code := c as int;
    || 9 <= code <= 13 || code == 32 || code == 160 || code == 5760 || 8192 <= code <= 8202 || code == 8232 || code == 8233
    || code == 8239 || code == 8287 || code == 12288 || code == 65279
  }

  lemma BlankIff(c: char)
    ensures IsBlank(c) <==> IsSpace(c)
  {
  }

  ghost predicate IsNumeral(text: string) {
    exists n :: NumeralForms.WellFormed(n) && text == NumeralForms.Spelled(n)
  }

  predicate IsPair(text: string) {
    text in {"&&", "||", "==", "!=", "<=", ">="}
  }

  predicate PairAt(s: string, i: nat) {
    i + 2 <= |s| && IsPair(s[i..i + 2])
  }

  /** From `from` on the text consists of these tokens with white space between them, and an end marker behind. */
  ghost predicate Consists(s: string, from: nat, ts: seq<Token>)
    decreases |ts|
  {
    && from <= |s| && ts != [] && from <= ts[0].offset <= |s| && (forall k :: from <= k < ts[0].offset ==> IsBlank(s[k]))
    && if |ts| == 1 then ts[0] == Token(Eof, "", |s|, |s|) else Says(s, ts[0]) && Consists(s, ts[0].end, ts[1..])
  }

  // ---------- one token ----------

  predicate StartsOperator(c: char) {
    || c == '&' || c == '|' || c == '=' || c == '!' || c == '<' || c == '>' || c == '+' || c == '-' || c == '*' || c == '/' || c == '%'
  }

  predicate StartsPunctuation(c: char) {
    c == '{' || c == '}' || c == '[' || c == ']' || c == '(' || c == ')' || c == ',' || c == ':' || c == '?' || c == '.'
  }

  /** The first character tells the kind. */
  function KindOf(c: char): Option<Kind> {
    if c == '"' || c == '\'' then Some(StringLiteral)
    else if IsDigit(c) then Some(NumberLiteral)
    else if IsWordStart(c) then Some(Identifier)
    else if StartsOperator(c) then Some(Operator)
    else if StartsPunctuation(c) then Some(Punctuation)
    else None
  }

  lemma FirstTells(s: string, t: Token)
    requires Says(s, t)
    ensures KindOf(s[t.offset]) == Some(t.kind) && !IsSpace(s[t.offset])
  {
    hide GoesOn, IsNumeral, IsPair, IsIdentifier, KindOf, IsSpace;
    var text := s[t.offset..t.end];
    assert text[0] == s[t.offset];
    match t.kind {
      case Identifier => IdentifierBegins(text);
      case NumberLiteral => NumeralBegins(text);
      case StringLiteral => StringBegins(text[0]);
      case Operator => SignLengths(text);
      case Punctuation => SignLengths(text);
    }
    QuoteIsNoSpace(text[0]);
  }

  lemma IdentifierBegins(text: string)
    requires IsIdentifier(text)
    ensures KindOf(text[0]) == Some(Identifier)
  {
  }

  lemma StringBegins(c: char)
    requires c == '"' || c == '\''
    ensures KindOf(c) == Some(StringLiteral)
  {
  }

  lemma NumeralBegins(text: string)
    requires IsNumeral(text)
    ensures text != "" && KindOf(text[0]) == Some(NumberLiteral)
  {
    NumeralForms.NumberIff(text);
  }

  lemma StringIff(s: string, i: nat, t: Token)
    requires i < |s| && (s[i] == '"' || s[i] == '\'')
    ensures PieceAt(s, i) == Piece(t) <==> t.offset == i && Says(s, t)
  {
    hide ReadChars, GoesOn, IsNumeral, IsSpace;
    assert !IsSpace(s[i]) by { QuoteIsNoSpace(s[i]); }
    ReadCharsIff(s, i, s[i], i + 1, "", t.end, t.value);
    assert "" + t.value == t.value;
    if t.offset == i && Says(s, t) {
      FirstTells(s, t);
      assert s[t.offset..t.end][0] == s[i];
    }
    if PieceAt(s, i) == Piece(t) {
      assert s[t.offset..t.end][0] == s[i];
    }
  }

  lemma QuoteIsNoSpace(c: char)
    requires KindOf(c).Some?
    ensures !IsSpace(c)
  {
  }

  lemma NumeralIff(s: string, i: nat, t: Token)
    requires i < |s| && IsDigit(s[i])
    ensures PieceAt(s, i) == Piece(t) <==> t.offset == i && Says(s, t)
  {
    hide ReadChars, GoesOn, IsNumeral, IsSpace, NumberEnd, IsNumber;
    QuoteIsNoSpace(s[i]);
    var end := NumberEnd(s, i);
    MatchedNumberIsNumber(s, i);
    NumeralForms.NumberIff(s[i..end]);
    assert IsNumeral(s[i..end]) by { Numeral(s[i..end]); }
    forall j | end < j <= |s| ensures !IsNumeral(s[i..j]) {
      NumeralForms.LongestMatch(s, i, j);
      Numeral(s[i..j]);
    }
    if t.offset == i && Says(s, t) {
      FirstTells(s, t);
      assert t.end == end;
    }
  }

  lemma Numeral(text: string)
    ensures IsNumeral(text) <==> IsNumber(text)
  {
    hide IsNumber;
    NumeralForms.NumberIff(text);
  }

  lemma WordIff(s: string, i: nat, t: Token)
    requires i < |s| && IsWordStart(s[i])
    ensures PieceAt(s, i) == Piece(t) <==> t.offset == i && Says(s, t)
  {
    hide ReadChars, GoesOn, IsNumeral, IsSpace, NumberEnd, WordEnd;
    QuoteIsNoSpace(s[i]);
    WordIsIdentifier(s[i..WordEnd(s, i + 1)]);
    if t.offset == i && t.end <= |s| && i < t.end {
      WordIsIdentifier(s[i..t.end]);
    }
    var end := WordEnd(s, i + 1);
    WordsOnly(s, i + 1);
    assert !IsDigit(s[i]);
    assert IsWord(s[i..end]);
    WordStopsThere(s, i + 1);
    if t.offset == i && Says(s, t) {
      FirstTells(s, t);
      forall k | i < k < t.end ensures IsWordPart(s[k]) {
        assert s[k] == s[i..t.end][k - i];
      }
      assert t.end == end by { WordEndIs(s, i + 1, t.end); }
    }
  }

  lemma {:induction false} WordStopsThere(s: string, i: nat)
    requires i <= |s|
    ensures WordEnd(s, i) < |s| ==> !IsWordPart(s[WordEnd(s, i)])
    decreases |s| - i
  {
    if i < |s| && IsWordPart(s[i]) {
      WordStopsThere(s, i + 1);
    }
  }

  lemma {:induction false} WordEndIs(s: string, i: nat, end: nat)
    requires i <= end <= |s| && (forall k :: i <= k < end ==> IsWordPart(s[k])) && (end < |s| ==> !IsWordPart(s[end]))
    ensures WordEnd(s, i) == end
    decreases end - i
  {
    if i < end {
      WordEndIs(s, i + 1, end);
    }
  }

  lemma SignLengths(text: string)
    ensures IsPair(text) ==> |text| == 2 && KindOf(text[0]) == Some(Operator)
    ensures text in SINGLE_OPERATORS ==> |text| == 1 && KindOf(text[0]) == Some(Operator)
    ensures text in PUNCTUATION ==> |text| == 1 && KindOf(text[0]) == Some(Punctuation)
  {
  }

  /** The sign at a position: a pair if there is one. */
  function SignAt(s: string, i: nat): Option<Token>
    requires i < |s|
  {
    if PairAt(s, i) then Some(Token(Operator, s[i..i + 2], i, i + 2))
    else if [s[i]] in SINGLE_OPERATORS then Some(Token(Operator, [s[i]], i, i + 1))
    else if [s[i]] in PUNCTUATION then Some(Token(Punctuation, [s[i]], i, i + 1))
    else None
  }

  lemma SignFound(s: string, i: nat)
    requires i < |s| && s[i] != '"' && s[i] != '\'' && !IsDigit(s[i]) && !IsWordStart(s[i]) && !IsSpace(s[i])
    ensures PieceAt(s, i) == match SignAt(s, i) case Some(t) => Piece(t) case None => Unknown(i)
  {
    hide IsSpace, IsWordStart, IsDigit;
  }

  lemma SignSays(s: string, i: nat, t: Token)
    requires i < |s| && SignAt(s, i) == Some(t)
    ensures t.offset == i && Says(s, t)
  {
    hide IsWordStart, IsDigit, GoesOn, IsNumeral;
    assert s[i..i + 1] == [s[i]];
  }

  lemma SaidSign(s: string, t: Token)
    requires Says(s, t) && (t.kind == Operator || t.kind == Punctuation)
    ensures SignAt(s, t.offset) == Some(t)
  {
    hide IsPair, IsWordStart, IsDigit, GoesOn, IsNumeral;
    var text := s[t.offset..t.end];
    SignLengths(text);
    if PairAt(s, t.offset) {
      SignLengths(s[t.offset..t.offset + 2]);
      assert s[t.offset..t.offset + 2][0] == s[t.offset] == text[0];
    }
    assert |text| == 1 ==> text == [s[t.offset]];
  }

  lemma SignIff(s: string, i: nat, t: Token)
    requires i < |s| && s[i] != '"' && s[i] != '\'' && !IsDigit(s[i]) && !IsWordStart(s[i]) && !IsSpace(s[i])
    ensures PieceAt(s, i) == Piece(t) <==> t.offset == i && Says(s, t)
  {
    hide PieceAt, Says, IsSpace, SignAt;
    SignFound(s, i);
    if SignAt(s, i) == Some(t) {
      SignSays(s, i, t);
    }
    if t.offset == i && Says(s, t) {
      FirstTells(s, t);
      SaidSign(s, t);
    }
  }

  /** A piece is found at a position exactly if a token says so. */
  lemma PieceIff(s: string, i: nat, t: Token)
    requires i < |s|
    ensures PieceAt(s, i) == Piece(t) <==> t.offset == i && Says(s, t)
  {
    hide Says, ReadChars, NumberEnd, WordEnd;
    if s[i] == '"' || s[i] == '\'' {
      StringIff(s, i, t);
    } else if IsDigit(s[i]) {
      NumeralIff(s, i, t);
    } else if IsWordStart(s[i]) {
      WordIff(s, i, t);
    } else if IsSpace(s[i]) {
      if t.offset == i && Says(s, t) {
        FirstTells(s, t);
        assert false;
      }
    } else {
      SignIff(s, i, t);
    }
  }

  // ---------- whole texts ----------

  /** A piece that is not found leaves no token for this place. */
  lemma NothingSaid(s: string, i: nat)
    requires i < |s| && !PieceAt(s, i).Piece?
    ensures forall t: Token :: t.offset == i ==> !Says(s, t)
  {
    hide Says, PieceAt;
    forall t: Token | t.offset == i ensures !Says(s, t) {
      PieceIff(s, i, t);
    }
  }

  lemma BlankIsFound(s: string, i: nat)
    requires i < |s|
    ensures PieceAt(s, i) == Blank <==> IsBlank(s[i])
  {
    hide ReadChars, NumberEnd, WordEnd, IsSpace, IsBlank;
    BlankIff(s[i]);
  }

  lemma ConsistsBehindSpace(s: string, from: nat, ts: seq<Token>)
    requires from < |s| && IsBlank(s[from]) && (forall t: Token :: t.offset == from ==> !Says(s, t))
    ensures Consists(s, from, ts) <==> Consists(s, from + 1, ts)
  {
    hide Says, IsBlank;
  }

  lemma ConsistsNow(s: string, from: nat, ts: seq<Token>)
    requires from < |s| && !IsBlank(s[from])
    ensures Consists(s, from, ts) <==> |ts| > 1 && ts[0].offset == from && Says(s, ts[0]) && Consists(s, ts[0].end, ts[1..])
  {
    hide Says, IsBlank;
  }

  /** The tokenizer returns these tokens exactly if the text consists of them; so it fails exactly if there are none. */
  lemma {:induction false} TokenizesIff(s: string, from: nat, ts: seq<Token>)
    requires from <= |s|
    ensures TokenizeFrom(s, from) == Lexed(ts) <==> Consists(s, from, ts)
    decreases |s| - from
  {
    hide Says, PieceAt, IsBlank, Consists;
    if from == |s| {
      ConsistsAtEnd(s, ts);
    } else {
      BlankIsFound(s, from);
      match PieceAt(s, from)
      case Blank =>
        NothingSaid(s, from);
        ConsistsBehindSpace(s, from, ts);
        TokenizesIff(s, from + 1, ts);
      case Unknown(_) =>
        NothingSaid(s, from);
        ConsistsNow(s, from, ts);
      case Piece(token) =>
        ConsistsNow(s, from, ts);
        if ts != [] {
          PieceIff(s, from, ts[0]);
          TokenizesIff(s, token.end, ts[1..]);
          SomethingFollows(s, token.end, ts[1..]);
          FirstAndRest(token, TokenizeFrom(s, token.end), ts);
        }
    }
  }

  lemma SomethingFollows(s: string, from: nat, ts: seq<Token>)
    ensures Consists(s, from, ts) ==> ts != []
  {
  }

  lemma FirstAndRest(token: Token, behind: Lexed, ts: seq<Token>)
    requires ts != []
    ensures behind.Lexed? ==> ([token] + behind.tokens == ts <==> ts[0] == token && behind.tokens == ts[1..])
  {
    if behind.Lexed? && [token] + behind.tokens == ts {
      assert ts[1..] == behind.tokens;
    }
    assert ts == [ts[0]] + ts[1..];
  }

  lemma ConsistsAtEnd(s: string, ts: seq<Token>)
    ensures Consists(s, |s|, ts) <==> ts == [Token(Eof, "", |s|, |s|)]
  {
    hide IsBlank;
    if Consists(s, |s|, ts) && |ts| > 1 {
      SaysInside(s, ts[0]);
      assert false;
    }
  }

  lemma SaysInside(s: string, t: Token)
    requires Says(s, t)
    ensures t.offset < |s|
  {
  }
}
