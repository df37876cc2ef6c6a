/** tokenize of the expression engine. A text is a sequence of runes; the Unicode tables behind
    unicode.IsLetter and unicode.IsDigit are given as predicates. */
module ExprLexer {
  import opened Outcomes
  import opened Strings

  datatype TokenType =
    | TokNumber | TokString | TokField | TokIdent
    | TokLParen | TokRParen | TokComma | TokPlus | TokMinus | TokStar | TokSlash | TokEOF

  datatype Token = Token(typ: TokenType, val: string)

  datatype CharClass = CharClass(isLetter: char -> bool, isDigit: char -> bool)

  /** What the proofs use of the Unicode tables: letters, digits and white space exclude each
      other, the punctuation of the language is none of them, and a to z are letters. */
  ghost predicate IsUnicode(cc: CharClass) {
    && (forall c :: cc.isLetter(c) ==> !cc.isDigit(c) && !IsSpace(c) && !IsPunctuation(c))
    && (forall c :: cc.isDigit(c) ==> !IsSpace(c) && !IsPunctuation(c))
    && (forall c :: 'a' <= c <= 'z' ==> cc.isLetter(c))
  }

  predicate IsPunctuation(c: char) {
    c in {'"', '\'', '$', '.', '-', '_', '[', ']', '(', ')', ',', '+', '*', '/', '\\'}
  }

  predicate IsFieldChar(cc: CharClass, c: char) {
    cc.isLetter(c) || cc.isDigit(c) || c == '_' || c == '.' || c == '[' || c == ']'
  }

  predicate IsNumberChar(cc: CharClass, c: char) {
    cc.isDigit(c) || c == '.'
  }

  predicate IsIdentChar(cc: CharClass, c: char) {
    cc.isLetter(c) || cc.isDigit(c) || c == '_'
  }

  function FieldChars(cc: CharClass): char -> bool {
    c => IsFieldChar(cc, c)
  }

  function NumberChars(cc: CharClass): char -> bool {
    c => IsNumberChar(cc, c)
  }

  function IdentChars(cc: CharClass): char -> bool {
    c => IsIdentChar(cc, c)
  }

  /** The length of the leading run of characters that satisfy p. */
  function Span(s: string, p: char -> bool): (n: nat)
    ensures n <= |s|
    ensures forall k :: 0 <= k < n ==> p(s[k])
    ensures n < |s| ==> !p(s[n])
  {
    if s == "" || !p(s[0]) then 0 else 1 + Span(s[1..], p)
  }

  /** How many characters of s come before the closing quote; a backslash takes the next one along. */
  function QuoteEnd(s: string, quote: char): (r: Option<nat>)
    ensures r.Some? ==> r.value < |s| && s[r.value] == quote
  {
    if s == "" then None
    else if s[0] == quote then Some(0)
    else
      var skip := if s[0] == '\\' && |s| > 1 then 2 else 1;
      match QuoteEnd(s[skip..], quote)
      case None => None
      case Some(n) => Some(skip + n)
  }

  /** A minus sign before a digit starts a literal only where an operand is due. */
  predicate OperandDue(last: Option<TokenType>) {
    last.None? || last.value in {TokLParen, TokComma, TokPlus, TokMinus, TokStar, TokSlash}
  }

  function Punctuation(c: char): Option<TokenType> {
    match c
    case '(' => Some(TokLParen)
    case ')' => Some(TokRParen)
    case ',' => Some(TokComma)
    case '+' => Some(TokPlus)
    case '-' => Some(TokMinus)
    case '*' => Some(TokStar)
    case '/' => Some(TokSlash)
    case _ => None
  }

  datatype Lexeme = Blank | Bad | Lexeme(token: Token, len: nat)

  function QuotedAt(s: string): (r: Lexeme)
    requires s != ""
    ensures r.Lexeme? ==> 0 < r.len <= |s|
  {
    match QuoteEnd(s[1..], s[0])
    case None => Bad
    case Some(n) => Lexeme(Token(TokString, s[1..1 + n]), n + 2)
  }

  function FieldAt(s: string, cc: CharClass): (r: Lexeme)
    requires |s| > 1
    ensures r.Lexeme? && 0 < r.len <= |s|
  {
    var n := Span(s[2..], FieldChars(cc));
    Lexeme(Token(TokField, s[2..2 + n]), n + 2)
  }

  function NumberAt(s: string, cc: CharClass): (r: Lexeme)
    requires s != "" && (s[0] == '-' || cc.isDigit(s[0]))
    ensures r.Lexeme? && 0 < r.len <= |s|
  {
    var sign := if s[0] == '-' then 1 else 0;
    var n := sign + Span(s[sign..], NumberChars(cc));
    Lexeme(Token(TokNumber, s[..n]), n)
  }

  function IdentAt(s: string, cc: CharClass): (r: Lexeme)
    requires s != "" && (cc.isLetter(s[0]) || s[0] == '_')
    ensures r.Lexeme? && 0 < r.len <= |s|
  {
    var n := Span(s, IdentChars(cc));
    Lexeme(Token(TokIdent, s[..n]), n)
  }

  /** What the text starts with, after a token of type last. */
  function First(s: string, last: Option<TokenType>, cc: CharClass): (r: Lexeme)
    requires s != ""
    ensures r.Lexeme? ==> 0 < r.len <= |s|
  {
    var ch := s[0];
    if IsSpace(ch) then Blank
    else if ch == '"' || ch == '\'' then QuotedAt(s)
    else if ch == '$' && |s| > 1 && s[1] == '.' then FieldAt(s, cc)
    else if cc.isDigit(ch) || (ch == '-' && |s| > 1 && cc.isDigit(s[1]) && OperandDue(last)) then NumberAt(s, cc)
    else if cc.isLetter(ch) || ch == '_' then IdentAt(s, cc)
    else
      match Punctuation(ch)
      case None => Bad
      case Some(typ) => Lexeme(Token(typ, [ch]), 1)
  }

  /** The tokens of a text, closed by TokEOF; None is the error of an unterminated string or a stray character. */
  function Lex(s: string, last: Option<TokenType>, cc: CharClass): Option<seq<Token>>
    decreases |s|
  {
    if s == "" then Some([Token(TokEOF, "")])
    else
      match First(s, last, cc)
      case Blank => Lex(s[1..], last, cc)
      case Bad => None
      case Lexeme(t, n) => Prepend([t], Lex(s[n..], Some(t.typ), cc))
  }

  function Prepend(ts: seq<Token>, rest: Option<seq<Token>>): Option<seq<Token>> {
    match rest
    case None => None
    case Some(us) => Some(ts + us)
  }

  lemma PrependNothing(r: Option<seq<Token>>)
    ensures Prepend([], r) == r
  {
    if r.Some? {
      assert [] + r.value == r.value;
    }
  }

  function LastType(ts: seq<Token>, last: Option<TokenType>): Option<TokenType> {
    if ts == [] then last else Some(ts[|ts| - 1].typ)
  }

  method Tokenize(runes: string, cc: CharClass) returns (r: Option<seq<Token>>)
    ensures r == Lex(runes, None, cc)
  {
    hide Lex, First;
    var tokens: seq<Token> := [];
    var i := 0;
    assert runes[0..] == runes;
    PrependNothing(Lex(runes, None, cc));
    while i < |runes|
      invariant 0 <= i <= |runes|
      invariant Lex(runes, None, cc) == Prepend(tokens, Lex(runes[i..], LastType(tokens, None), cc))
      decreases |runes| - i
    {
      LexStep(runes, i, tokens, cc);
      var lexeme := ScanLexeme(runes, i, LastType(tokens, None), cc);
      match lexeme {
        case Blank => i := i + 1;
        case Bad => return None;
        case Lexeme(t, n) =>
          tokens := tokens + [t];
          i := i + n;
      }
    }
    LexNothing(LastType(tokens, None), cc);
    assert runes[i..] == "";
    return Some(tokens + [Token(TokEOF, "")]);
  }

  /** One round of the tokenizer's loop: the branches on the character at i. */
  method ScanLexeme(runes: string, i: nat, last: Option<TokenType>, cc: CharClass) returns (r: Lexeme)
    requires i < |runes|
    ensures r == First(runes[i..], last, cc)
  {
    hide QuotedAt, FieldAt, NumberAt, IdentAt;
    var ch := runes[i];
    if IsSpace(ch) {
      return Blank;
    }
    if ch == '"' || ch == '\'' {
      r := ScanString(runes, i);
      return;
    }
    if ch == '$' && i + 1 < |runes| && runes[i + 1] == '.' {
      r := ScanField(runes, i, cc);
      return;
    }
    if cc.isDigit(ch) || (ch == '-' && i + 1 < |runes| && cc.isDigit(runes[i + 1]) && OperandDue(last)) {
      r := ScanNumber(runes, i, cc);
      return;
    }
    if cc.isLetter(ch) || ch == '_' {
      r := ScanIdent(runes, i, cc);
      return;
    }
    match Punctuation(ch) {
      case None => return Bad;
      case Some(typ) => return Lexeme(Token(typ, [ch]), 1);
    }
  }

  method ScanString(runes: string, i: nat) returns (r: Lexeme)
    requires i < |runes| && runes[i] != '\\'
    ensures r == QuotedAt(runes[i..])
  {
    hide QuoteEnd;
    var end := ScanQuoted(runes, i + 1, runes[i]);
    if end >= |runes| {
      SliceOfRest(runes, i, 1, 1);
      return Bad;
    }
    SliceOfRest(runes, i, 1, end - i);
    return Lexeme(Token(TokString, runes[i + 1..end]), end + 1 - i);
  }

  method ScanField(runes: string, i: nat, cc: CharClass) returns (r: Lexeme)
    requires i + 1 < |runes|
    ensures r == FieldAt(runes[i..], cc)
  {
    hide Span, FieldChars;
    var n := RunLength(runes, i + 2, FieldChars(cc));
    SliceOfRest(runes, i, 2, 2 + n);
    return Lexeme(Token(TokField, runes[i + 2..i + 2 + n]), n + 2);
  }

  method ScanNumber(runes: string, i: nat, cc: CharClass) returns (r: Lexeme)
    requires i < |runes| && (runes[i] == '-' || cc.isDigit(runes[i]))
    ensures r == NumberAt(runes[i..], cc)
  {
    hide Span, NumberChars;
    var sign := if runes[i] == '-' then 1 else 0;
    var n := RunLength(runes, i + sign, NumberChars(cc));
    SliceOfRest(runes, i, sign, sign + n);
    return Lexeme(Token(TokNumber, runes[i..i + sign + n]), sign + n);
  }

  method ScanIdent(runes: string, i: nat, cc: CharClass) returns (r: Lexeme)
    requires i < |runes| && (cc.isLetter(runes[i]) || runes[i] == '_')
    ensures r == IdentAt(runes[i..], cc)
  {
    hide Span, IdentChars;
    var n := RunLength(runes, i, IdentChars(cc));
    SliceOfRest(runes, i, 0, n);
    return Lexeme(Token(TokIdent, runes[i..i + n]), n);
  }

  lemma SliceOfRest(s: string, i: nat, a: nat, b: nat)
    requires a <= b && i + b <= |s|
    ensures s[i..][a..] == s[i + a..] && s[i..][a..b] == s[i + a..i + b] && s[i..][..b] == s[i..i + b]
  {
  }

  /** The loop to the closing quote; the end of the text if there is none. */
  method ScanQuoted(runes: string, start: nat, quote: char) returns (i: nat)
    requires start <= |runes|
    ensures start <= i <= |runes|
    ensures QuoteEnd(runes[start..], quote) == if i < |runes| then Some(i - start) else None
  {
    hide QuoteEnd;
    i := start;
    QuoteEndShift0(QuoteEnd(runes[start..], quote));
    while i < |runes| && runes[i] != quote
      invariant start <= i <= |runes|
      invariant QuoteEnd(runes[start..], quote) == Shift(i - start, QuoteEnd(runes[i..], quote))
    {
      QuoteEndStep(runes, i, quote);
      if runes[i] == '\\' && i + 1 < |runes| {
        i := i + 1;
      }
      i := i + 1;
    }
    QuoteEndDone(runes, i, quote);
  }

  lemma QuoteEndShift0(r: Option<nat>)
    ensures Shift(0, r) == r
  {
  }

  lemma QuoteEndDone(runes: string, i: nat, quote: char)
    requires i <= |runes| && (i < |runes| ==> runes[i] == quote)
    ensures QuoteEnd(runes[i..], quote) == if i < |runes| then Some(0) else None
  {
  }

  lemma QuoteEndStep(runes: string, i: nat, quote: char)
    requires i < |runes| && runes[i] != quote
    ensures var skip := if runes[i] == '\\' && i + 1 < |runes| then 2 else 1;
            QuoteEnd(runes[i..], quote) == Shift(skip, QuoteEnd(runes[i + skip..], quote))
  {
    var skip := if runes[i] == '\\' && i + 1 < |runes| then 2 else 1;
    assert runes[i..][skip..] == runes[i + skip..];
  }

  function Shift(n: nat, r: Option<nat>): Option<nat> {
    match r
    case None => None
    case Some(m) => Some(n + m)
  }

  /** The inner scanning loops. */
  method RunLength(runes: string, i: nat, p: char -> bool) returns (n: nat)
    requires i <= |runes|
    ensures n == Span(runes[i..], p)
  {
    n := 0;
    while i + n < |runes| && p(runes[i + n])
      invariant i + n <= |runes|
      invariant Span(runes[i..], p) == n + Span(runes[i + n..], p)
    {
      assert runes[i + n..][1..] == runes[i + n + 1..];
      n := n + 1;
    }
  }

  /** One round of the tokenizer, seen from the tokens collected so far. */
  lemma LexStep(runes: string, i: nat, tokens: seq<Token>, cc: CharClass)
    requires i < |runes|
    ensures var rest, last := runes[i..], LastType(tokens, None);
            Prepend(tokens, Lex(rest, last, cc)) ==
            match First(rest, last, cc)
            case Blank => Prepend(tokens, Lex(runes[i + 1..], last, cc))
            case Bad => None
            case Lexeme(t, n) => Prepend(tokens + [t], Lex(runes[i + n..], LastType(tokens + [t], None), cc))
  {
    hide First;
    var rest, last := runes[i..], LastType(tokens, None);
    assert rest[1..] == runes[i + 1..];
    match First(rest, last, cc)
    case Blank =>
    case Bad =>
    case Lexeme(t, n) =>
      assert rest[n..] == runes[i + n..];
      match Lex(runes[i + n..], Some(t.typ), cc)
      case None =>
      case Some(us) => assert tokens + ([t] + us) == tokens + [t] + us;
  }

  // ----- Tokens survive printing -----

  /** A string whose backslashes each take a character along and that holds no bare quote. */
  predicate Quotable(s: string, quote: char) {
    if s == "" then true
    else if s[0] == quote then false
    else if s[0] == '\\' then |s| > 1 && Quotable(s[2..], quote)
    else Quotable(s[1..], quote)
  }

  function QuoteFor(s: string): char {
    if Quotable(s, '"') then '"' else '\''
  }

  function Text(t: Token): string {
    match t.typ
    case TokString => [QuoteFor(t.val)] + t.val + [QuoteFor(t.val)]
    case TokField => "$." + t.val
    case _ => t.val
  }

  ghost predicate IsDigits(cc: CharClass, s: string) {
    s != "" && cc.isDigit(s[0]) && forall k :: 0 <= k < |s| ==> IsNumberChar(cc, s[k])
  }

  /** A token that the tokenizer can produce after a token of type last. */
  ghost predicate Printable(cc: CharClass, t: Token, last: Option<TokenType>) {
    match t.typ
    case TokNumber =>
      IsDigits(cc, t.val) || (t.val != "" && t.val[0] == '-' && IsDigits(cc, t.val[1..]) && OperandDue(last))
    case TokString => Quotable(t.val, QuoteFor(t.val))
    case TokField => forall k :: 0 <= k < |t.val| ==> IsFieldChar(cc, t.val[k])
    case TokIdent =>
      t.val != "" && !cc.isDigit(t.val[0]) && forall k :: 0 <= k < |t.val| ==> IsIdentChar(cc, t.val[k])
    case TokEOF => false
    case _ => |t.val| == 1 && Punctuation(t.val[0]) == Some(t.typ)
  }

  ghost predicate AllPrintable(cc: CharClass, ts: seq<Token>, last: Option<TokenType>) {
    if ts == [] then true
    else Printable(cc, ts[0], last) && AllPrintable(cc, ts[1..], Some(ts[0].typ))
  }

  /** The tokens with a space between neighbours. */
  function Render(ts: seq<Token>): string {
    if ts == [] then ""
    else if |ts| == 1 then Text(ts[0])
    else Text(ts[0]) + " " + Render(ts[1..])
  }

  /** The text after a token does not run on with it: it does not start with a character that
      would be taken along. */
  ghost predicate Ends(cc: CharClass, t: Token, last: Option<TokenType>, rest: string) {
    rest != "" ==>
      match t.typ
      case TokNumber => !IsNumberChar(cc, rest[0])
      case TokField => !IsFieldChar(cc, rest[0])
      case TokIdent => !IsIdentChar(cc, rest[0])
      case TokMinus => !(cc.isDigit(rest[0]) && OperandDue(last))
      case _ => true
  }

  lemma {:induction false} SpanIs(s: string, p: char -> bool, n: nat)
    requires n <= |s| && (forall k :: 0 <= k < n ==> p(s[k])) && (n < |s| ==> !p(s[n]))
    ensures Span(s, p) == n
  {
    if n > 0 {
      SpanIs(s[1..], p, n - 1);
    }
  }

  lemma {:induction false} QuoteEndIs(s: string, quote: char, rest: string)
    requires Quotable(s, quote) && quote != '\\'
    ensures QuoteEnd(s + [quote] + rest, quote) == Some(|s|)
  {
    var u := s + [quote] + rest;
    if s != "" {
      var skip := if s[0] == '\\' then 2 else 1;
      QuoteEndIs(s[skip..], quote, rest);
      assert u[skip..] == s[skip..] + [quote] + rest;
      assert u[0] == s[0];
    }
  }

  lemma FirstOfString(cc: CharClass, t: Token, rest: string, last: Option<TokenType>)
    requires t.typ == TokString && Printable(cc, t, last)
    ensures First(Text(t) + rest, last, cc) == Lexeme(t, |Text(t)|)
  {
    hide QuotedAt, Quotable;
    QuotedText(t.val, QuoteFor(t.val), rest);
    assert Text(t) + rest == [QuoteFor(t.val)] + t.val + [QuoteFor(t.val)] + rest;
  }

  lemma QuotedText(val: string, q: char, rest: string)
    requires Quotable(val, q) && q != '\\'
    ensures QuotedAt([q] + val + [q] + rest) == Lexeme(Token(TokString, val), |val| + 2)
  {
    hide Quotable, QuoteEnd;
    var s := [q] + val + [q] + rest;
    QuoteEndIs(val, q, rest);
    assert s[1..] == val + [q] + rest;
    assert s[1..1 + |val|] == val;
  }

  lemma FirstOfField(cc: CharClass, t: Token, rest: string, last: Option<TokenType>)
    requires IsUnicode(cc) && t.typ == TokField && Printable(cc, t, last)
    ensures First(Text(t) + rest, last, cc) == Lexeme(t, |Text(t)|) <==> Ends(cc, t, last, rest)
  {
    hide FieldAt, IsUnicode;
    FieldText(cc, t.val, rest);
    assert Text(t) + rest == "$." + (t.val + rest);
  }

  lemma FieldText(cc: CharClass, val: string, rest: string)
    requires IsUnicode(cc) && (forall k :: 0 <= k < |val| ==> IsFieldChar(cc, val[k]))
    ensures FieldAt("$." + (val + rest), cc) == Lexeme(Token(TokField, val), |val| + 2)
            <==> rest == "" || !IsFieldChar(cc, rest[0])
  {
    hide Span;
    var s := "$." + (val + rest);
    assert s[2..] == val + rest;
    assert s[2..2 + |val|] == val;
    if rest == "" || !IsFieldChar(cc, rest[0]) {
      SpanIs(val + rest, FieldChars(cc), |val|);
    } else {
      SpanIsNot(val, rest, FieldChars(cc));
    }
  }

  lemma SpanIsNot(s: string, rest: string, p: char -> bool)
    requires rest != "" && p(rest[0])
    ensures Span(s + rest, p) != |s|
  {
    assert (s + rest)[|s|] == rest[0];
  }

  lemma FirstOfNumber(cc: CharClass, t: Token, rest: string, last: Option<TokenType>)
    requires IsUnicode(cc) && t.typ == TokNumber && Printable(cc, t, last)
    ensures First(Text(t) + rest, last, cc) == Lexeme(t, |Text(t)|) <==> Ends(cc, t, last, rest)
  {
    var s := Text(t) + rest;
    var sign := if t.val[0] == '-' then 1 else 0;
    assert IsDigits(cc, t.val[sign..]);
    NumberSpan(cc, t.val[sign..], rest);
    assert s[sign..] == t.val[sign..] + rest;
    assert s[..|t.val|] == t.val;
    assert s[0] == t.val[0];
    if sign == 1 {
      assert s[1] == t.val[1..][0];
    }
  }

  lemma NumberSpan(cc: CharClass, digits: string, rest: string)
    requires IsUnicode(cc) && IsDigits(cc, digits)
    ensures Span(digits + rest, NumberChars(cc)) == |digits| <==> rest == "" || !IsNumberChar(cc, rest[0])
    ensures !IsSpace(digits[0]) && !IsPunctuation(digits[0])
  {
    if rest == "" || !IsNumberChar(cc, rest[0]) {
      SpanIs(digits + rest, NumberChars(cc), |digits|);
    } else {
      SpanIsNot(digits, rest, NumberChars(cc));
    }
  }

  lemma FirstOfIdent(cc: CharClass, t: Token, rest: string, last: Option<TokenType>)
    requires IsUnicode(cc) && t.typ == TokIdent && Printable(cc, t, last)
    ensures First(Text(t) + rest, last, cc) == Lexeme(t, |Text(t)|) <==> Ends(cc, t, last, rest)
  {
    var s := Text(t) + rest;
    assert s[..|t.val|] == t.val && s[0] == t.val[0];
    if rest == "" || !IsIdentChar(cc, rest[0]) {
      SpanIs(s, IdentChars(cc), |t.val|);
    } else {
      SpanIsNot(t.val, rest, IdentChars(cc));
    }
  }

  lemma FirstOfPunctuation(cc: CharClass, t: Token, rest: string, last: Option<TokenType>)
    requires IsUnicode(cc) && Printable(cc, t, last) && t.typ !in {TokNumber, TokString, TokField, TokIdent}
    ensures First(Text(t) + rest, last, cc) == Lexeme(t, |Text(t)|) <==> Ends(cc, t, last, rest)
  {
    hide NumberAt;
    var s := Text(t) + rest;
    assert s[0] == t.val[0] && t.val == [t.val[0]];
    if |s| > 1 {
      assert s[1] == rest[0];
    }
    if t.typ == TokMinus && !Ends(cc, t, last, rest) {
      LongerThanSign(s, cc);
    }
  }

  lemma LongerThanSign(s: string, cc: CharClass)
    requires |s| > 1 && s[0] == '-' && cc.isDigit(s[1])
    ensures NumberAt(s, cc).len > 1
  {
    assert s[1..][0] == s[1];
  }

  /** The text of a token is read back as that token if and only if the text after it does not run
      on with it. */
  lemma FirstOfText(cc: CharClass, t: Token, rest: string, last: Option<TokenType>)
    requires IsUnicode(cc) && Printable(cc, t, last)
    ensures First(Text(t) + rest, last, cc) == Lexeme(t, |Text(t)|) <==> Ends(cc, t, last, rest)
  {
    hide IsUnicode, First;
    match t.typ
    case TokString => FirstOfString(cc, t, rest, last);
    case TokField => FirstOfField(cc, t, rest, last);
    case TokNumber => FirstOfNumber(cc, t, rest, last);
    case TokIdent => FirstOfIdent(cc, t, rest, last);
    case _ => FirstOfPunctuation(cc, t, rest, last);
  }

  lemma SpaceEnds(cc: CharClass, t: Token, last: Option<TokenType>, rest: string)
    requires IsUnicode(cc) && (rest == "" || IsSpace(rest[0]))
    ensures Ends(cc, t, last, rest)
  {
  }

  /** Tokenizing the printed tokens gives the tokens back. */
  lemma {:induction false} LexRender(cc: CharClass, ts: seq<Token>, last: Option<TokenType>)
    requires IsUnicode(cc) && AllPrintable(cc, ts, last)
    ensures Lex(Render(ts), last, cc) == Some(ts + [Token(TokEOF, "")])
    decreases |ts|
  {
    hide IsUnicode, First, Printable, Text, Lex;
    if ts == [] {
      LexNothing(last, cc);
      assert ts + [Token(TokEOF, "")] == [Token(TokEOF, "")];
    } else {
      var t := ts[0];
      var rest := if |ts| == 1 then "" else " " + Render(ts[1..]);
      var s := Render(ts);
      assert s == Text(t) + rest;
      SpaceEnds(cc, t, last, rest);
      FirstOfText(cc, t, rest, last);
      assert s[|Text(t)|..] == rest;
      LexRender(cc, ts[1..], Some(t.typ));
      if |ts| == 1 {
        LexNothing(Some(t.typ), cc);
      } else {
        SkipSpace(Render(ts[1..]), Some(t.typ), cc);
      }
      assert [t] + (ts[1..] + [Token(TokEOF, "")]) == ts + [Token(TokEOF, "")];
      LexOne(s, t, last, cc);
    }
  }

  lemma LexNothing(last: Option<TokenType>, cc: CharClass)
    ensures Lex("", last, cc) == Some([Token(TokEOF, "")])
  {
  }

  lemma LexOne(s: string, t: Token, last: Option<TokenType>, cc: CharClass)
    requires s != "" && First(s, last, cc) == Lexeme(t, |Text(t)|)
    ensures Lex(s, last, cc) == Prepend([t], Lex(s[|Text(t)|..], Some(t.typ), cc))
  {
  }

  lemma SkipSpace(s: string, last: Option<TokenType>, cc: CharClass)
    ensures Lex(" " + s, last, cc) == Lex(s, last, cc)
  {
    assert (" " + s)[1..] == s;
  }

  // ----- Any white space between tokens, or none -----

  /** The tokens with gaps before, between and after them. */
  function Spread(ts: seq<Token>, gaps: seq<string>): string
    requires |gaps| == |ts| + 1
    decreases |ts|
  {
    if ts == [] then gaps[0] else gaps[0] + (Text(ts[0]) + Spread(ts[1..], gaps[1..]))
  }

  ghost predicate AllSpaces(gaps: seq<string>) {
    forall i, k :: 0 <= i < |gaps| && 0 <= k < |gaps[i]| ==> IsSpace(gaps[i][k])
  }

  /** No token runs on into the text after it. */
  ghost predicate KeptApart(cc: CharClass, ts: seq<Token>, gaps: seq<string>, last: Option<TokenType>)
    requires |gaps| == |ts| + 1
    decreases |ts|
  {
    ts == [] ||
    (Ends(cc, ts[0], last, Spread(ts[1..], gaps[1..])) && KeptApart(cc, ts[1..], gaps[1..], Some(ts[0].typ)))
  }

  lemma {:induction false} SkipGap(gap: string, s: string, last: Option<TokenType>, cc: CharClass)
    requires forall k :: 0 <= k < |gap| ==> IsSpace(gap[k])
    ensures Lex(gap + s, last, cc) == Lex(s, last, cc)
  {
    hide QuotedAt, FieldAt, NumberAt, IdentAt;
    if gap == "" {
      assert gap + s == s;
    } else {
      assert (gap + s)[1..] == gap[1..] + s;
      SkipGap(gap[1..], s, last, cc);
    }
  }

  lemma HeadIs(t: Token, rest: Option<seq<Token>>, u: Token, ts: seq<Token>)
    ensures Prepend([u], rest) == Some([t] + ts) <==> t == u && rest == Some(ts)
  {
    if rest.Some? && [u] + rest.value == [t] + ts {
      assert ([u] + rest.value)[0] == u && ([u] + rest.value)[1..] == rest.value;
      assert ([t] + ts)[0] == t && ([t] + ts)[1..] == ts;
    }
  }

  /** A token's text at the head of another text gives that token first, or is not read as it. */
  lemma LexHead(cc: CharClass, t: Token, rest: string, last: Option<TokenType>, ts: seq<Token>)
    requires IsUnicode(cc) && Printable(cc, t, last) && Text(t) != ""
    ensures Lex(Text(t) + rest, last, cc) == Some([t] + ts) <==>
              Ends(cc, t, last, rest) && Lex(rest, Some(t.typ), cc) == Some(ts)
  {
    hide IsUnicode, Printable, First, Ends, Text;
    FirstOfText(cc, t, rest, last);
    var s := Text(t) + rest;
    assert s[|Text(t)|..] == rest;
    match First(s, last, cc)
    case Blank => NeverBlank(cc, t, rest, last);
    case Bad =>
    case Lexeme(u, n) =>
      HeadIs(t, Lex(s[n..], Some(u.typ), cc), u, ts);
      if t == u {
        SameTokenSameLength(cc, t, rest, last);
      }
  }

  lemma TextStarts(cc: CharClass, t: Token, last: Option<TokenType>)
    requires IsUnicode(cc) && Printable(cc, t, last)
    ensures Text(t) != "" && !IsSpace(Text(t)[0])
  {
    hide Quotable;
    match t.typ
    case TokNumber => assert t.val[0] == '-' || cc.isDigit(t.val[0]);
    case TokIdent => assert IsIdentChar(cc, t.val[0]);
    case _ =>
  }

  lemma BlankIsSpace(s: string, last: Option<TokenType>, cc: CharClass)
    requires s != ""
    ensures First(s, last, cc) == Blank <==> IsSpace(s[0])
  {
    hide QuoteEnd, Span;
  }

  lemma NeverBlank(cc: CharClass, t: Token, rest: string, last: Option<TokenType>)
    requires IsUnicode(cc) && Printable(cc, t, last)
    ensures First(Text(t) + rest, last, cc) != Blank
  {
    hide IsUnicode, Printable, Text, First, IsSpace;
    TextStarts(cc, t, last);
    assert (Text(t) + rest)[0] == Text(t)[0];
    BlankIsSpace(Text(t) + rest, last, cc);
  }

  lemma SameTokenSameLength(cc: CharClass, t: Token, rest: string, last: Option<TokenType>)
    requires IsUnicode(cc) && Printable(cc, t, last)
    requires First(Text(t) + rest, last, cc).Lexeme? && First(Text(t) + rest, last, cc).token == t
    ensures First(Text(t) + rest, last, cc).len == |Text(t)|
  {
    hide QuoteEnd, Span;
  }

  /** Tokenizing tokens spread over a text gives the tokens back if and only if none of them runs on
      into the text after it: white space of any kind and length, or none, may stand between. */
  lemma {:induction false} LexSpread(cc: CharClass, ts: seq<Token>, gaps: seq<string>, last: Option<TokenType>)
    requires IsUnicode(cc) && AllPrintable(cc, ts, last) && |gaps| == |ts| + 1 && AllSpaces(gaps)
    ensures Lex(Spread(ts, gaps), last, cc) == Some(ts + [Token(TokEOF, "")]) <==> KeptApart(cc, ts, gaps, last)
    decreases |ts|
  {
    hide IsUnicode, Printable, Text, Lex, Ends;
    if ts == [] {
      SkipGap(gaps[0], "", last, cc);
      assert gaps[0] + "" == gaps[0];
      LexNothing(last, cc);
      assert ts + [Token(TokEOF, "")] == [Token(TokEOF, "")];
    } else {
      var t, rest := ts[0], Spread(ts[1..], gaps[1..]);
      TextNotEmpty(cc, t, last);
      SkipGap(gaps[0], Text(t) + rest, last, cc);
      LexHead(cc, t, rest, last, ts[1..] + [Token(TokEOF, "")]);
      LexSpread(cc, ts[1..], gaps[1..], Some(t.typ));
      assert ts + [Token(TokEOF, "")] == [t] + (ts[1..] + [Token(TokEOF, "")]);
    }
  }

  lemma TextNotEmpty(cc: CharClass, t: Token, last: Option<TokenType>)
    requires Printable(cc, t, last)
    ensures Text(t) != ""
  {
  }
}
