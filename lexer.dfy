/** The lexer (lexer.h): a cursor and a line counter over the source text. Each call of
    Next reads one token. Scan is the specification of the loop inside next(); the lemmas
    below it state what the lexer does with whitespace, words, operators, string literals
    and comments. */
module Lexing {
  import opened Wrappers
  import opened Tokens

  /** The fixed tokens: keywords, punctuation and operators. */
  const TokenTable: map<string, TokenKind> := map[
    "if" := KwIf, "while" := KwWhile, "return" := KwReturn, "var" := KwVar,
    "(" := ParenOpen, ")" := ParenClose, "[" := SqBracketOpen, "]" := SqBracketClose,
    "{" := CurlyOpen, "}" := CurlyClose, "," := Comma, ";" := Semicolon, ":" := Colon,
    "?" := QuestionMark, "+" := Plus, "-" := Minus, "=" := Equals,
    "+=" := PlusEquals, "-=" := MinusEquals, "!" := Negate, "!=" := NegateEquals,
    "++" := Increment, "--" := Decrement, "==" := Compare,
    "*" := Star, "&" := Amp, "&&" := And, "||" := Or]

  const ReservedWords: seq<string> := ["if", "while", "return", "var"]

  /** The token kind of a one-character symbol, as the table gives it. */
  function OneCharKind(c: char): Option<TokenKind> {
    match c
    case '(' => Some(ParenOpen)
    case ')' => Some(ParenClose)
    case '[' => Some(SqBracketOpen)
    case ']' => Some(SqBracketClose)
    case '{' => Some(CurlyOpen)
    case '}' => Some(CurlyClose)
    case ',' => Some(Comma)
    case ';' => Some(Semicolon)
    case ':' => Some(Colon)
    case '?' => Some(QuestionMark)
    case '+' => Some(Plus)
    case '-' => Some(Minus)
    case '=' => Some(Equals)
    case '!' => Some(Negate)
    case '*' => Some(Star)
    case '&' => Some(Amp)
    case _ => None
  }

  /** The token kind of a two-character symbol, as the table gives it. */
  function TwoCharKind(a: char, b: char): Option<TokenKind> {
    if a == 'i' && b == 'f' then Some(KwIf)
    else if b == '=' then
      match a
      case '+' => Some(PlusEquals)
      case '-' => Some(MinusEquals)
      case '!' => Some(NegateEquals)
      case '=' => Some(Compare)
      case _ => None
    else if a == b then
      match a
      case '+' => Some(Increment)
      case '-' => Some(Decrement)
      case '&' => Some(And)
      case '|' => Some(Or)
      case _ => None
    else None
  }

  /** The table lookup, decided by the symbol's length and then character by character. */
  function TokenKindOf(symbol: string): Option<TokenKind> {
    if |symbol| == 1 then OneCharKind(symbol[0])
    else if |symbol| == 2 then TwoCharKind(symbol[0], symbol[1])
    else if |symbol| == 3 && symbol[0] == 'v' && symbol[1] == 'a' && symbol[2] == 'r' then Some(KwVar)
    else if |symbol| == 5 && symbol[0] == 'w' && symbol[1] == 'h' && symbol[2] == 'i' && symbol[3] == 'l'
      && symbol[4] == 'e' then Some(KwWhile)
    else if |symbol| == 6 && symbol[0] == 'r' && symbol[1] == 'e' && symbol[2] == 't' && symbol[3] == 'u'
      && symbol[4] == 'r' && symbol[5] == 'n' then Some(KwReturn)
    else None
  }

  lemma {:induction false} OneCharLookup(c: char)
    ensures OneCharKind(c).Some? <==> [c] in TokenTable
    ensures [c] in TokenTable ==> OneCharKind(c).value == TokenTable[[c]]
  {
  }

  lemma {:induction false} TwoCharLookup(a: char, b: char)
    ensures TwoCharKind(a, b).Some? <==> [a, b] in TokenTable
    ensures [a, b] in TokenTable ==> TwoCharKind(a, b).value == TokenTable[[a, b]]
  {
  }

  lemma {:induction false} LongLookup(symbol: string)
    requires |symbol| > 2
    ensures TokenKindOf(symbol).Some? <==> symbol in TokenTable
    ensures symbol in TokenTable ==> TokenKindOf(symbol).value == TokenTable[symbol]
  {
    if |symbol| == 3 {
      assert symbol == [symbol[0], symbol[1], symbol[2]];
    } else if |symbol| == 5 {
      assert symbol == [symbol[0], symbol[1], symbol[2], symbol[3], symbol[4]];
    } else if |symbol| == 6 {
      assert symbol == [symbol[0], symbol[1], symbol[2], symbol[3], symbol[4], symbol[5]];
    }
  }

  /** The lookup agrees with the token table: the same symbols, with the same kinds. */
  lemma {:induction false} TokenKindOfIsTableLookup(symbol: string)
    ensures TokenKindOf(symbol).Some? <==> symbol in TokenTable
    ensures symbol in TokenTable ==> TokenKindOf(symbol).value == TokenTable[symbol]
  {
    if |symbol| == 1 {
      assert symbol == [symbol[0]];
      OneCharLookup(symbol[0]);
    } else if |symbol| == 2 {
      assert symbol == [symbol[0], symbol[1]];
      TwoCharLookup(symbol[0], symbol[1]);
    } else if |symbol| > 2 {
      LongLookup(symbol);
    }
  }

  /** istoken(symbol): the symbol is in the token table. */
  predicate IsToken(symbol: string) {
    TokenKindOf(symbol).Some?
  }

  /** istoken(char): the one-character string is in the token table. */
  predicate IsTokenChar(c: char) {
    OneCharKind(c).Some?
  }

  /** isreserved(symbol): the symbol is one of the four keywords. */
  predicate IsReserved(symbol: string) {
    TokenKindOf(symbol) in {Some(KwIf), Some(KwWhile), Some(KwReturn), Some(KwVar)}
  }

  /** The keywords are exactly the reserved words. */
  lemma {:induction false} ReservedIsReservedWords(symbol: string)
    ensures IsReserved(symbol) <==> symbol in ReservedWords
  {
    TokenKindOfIsTableLookup(symbol);
  }

  /** C's isspace: blank, tab, newline, vertical tab, form feed, carriage return. */
  predicate IsSpace(c: char) {
    c == ' ' || c == '\t' || c == '\n' || c == 11 as char || c == 12 as char || c == '\r'
  }

  predicate IsDigit(c: char) {
    '0' <= c <= '9'
  }

  predicate AllDigits(symbol: string) {
    forall k :: 0 <= k < |symbol| ==> IsDigit(symbol[k])
  }

  predicate IsCommentStart(symbol: string) {
    |symbol| >= 2 && symbol[0] == '/' && (symbol[1] == '/' || symbol[1] == '*')
  }

  /** Decimal value of a digit string (stoi; int overflow is not modelled). */
  function DecimalValue(digits: string): nat
    requires AllDigits(digits)
  {
    if digits == [] then 0
    else DecimalValue(digits[..|digits| - 1]) * 10 + (digits[|digits| - 1] as int - '0' as int)
  }

  /** std::count(first, last, '\n') over text[lo..hi]. */
  function CountNewlines(text: string, lo: nat, hi: nat): (n: nat)
    requires lo <= hi <= |text|
    ensures n <= hi - lo
    decreases hi - lo
  {
    if lo == hi then 0
    else CountNewlines(text, lo, hi - 1) + (if text[hi - 1] == '\n' then 1 else 0)
  }

  /** std::string::find(c, from): the first position at or after from that holds c. */
  function FindChar(text: string, c: char, from: nat): (r: Option<nat>)
    requires from <= |text|
    ensures r.Some? ==> from <= r.value < |text| && text[r.value] == c
    ensures r.Some? ==> forall k :: from <= k < r.value ==> text[k] != c
    ensures r.None? ==> forall k :: from <= k < |text| ==> text[k] != c
    decreases |text| - from
  {
    if from == |text| then None
    else if text[from] == c then Some(from)
    else FindChar(text, c, from + 1)
  }

  /** std::string::find("*\/", from): the first position at or after from that starts "*\/". */
  function FindCommentEnd(text: string, from: nat): (r: Option<nat>)
    requires from <= |text|
    ensures r.Some? ==> from <= r.value && r.value + 1 < |text| && text[r.value] == '*' && text[r.value + 1] == '/'
    ensures r.Some? ==> forall k :: from <= k < r.value ==> !(text[k] == '*' && text[k + 1] == '/')
    ensures r.None? ==> forall k :: from <= k && k + 1 < |text| ==> !(text[k] == '*' && text[k + 1] == '/')
    decreases |text| - from
  {
    if from + 1 >= |text| then None
    else if text[from] == '*' && text[from + 1] == '/' then Some(from)
    else FindCommentEnd(text, from + 1)
  }

  lemma {:induction false} TableKindsCarryNoPayload(symbol: string)
    requires IsToken(symbol)
    ensures TokenKindOf(symbol).value !in {Reserved, Ident, IntLit, StrLit, Eof}
  {
  }

  /** A keyword or operator token read from the table. */
  function FixedToken(symbol: string, line: nat): (t: Token)
    requires IsToken(symbol)
    ensures t.kind == TokenKindOf(symbol).value && t.kind !in {Reserved, Ident, IntLit, StrLit, Eof}
    ensures t.line == line && PayloadMatchesKind(t)
  {
    TableKindsCarryNoPayload(symbol);
    MakeToken(TokenKindOf(symbol).value, line).value
  }

  /** A finished symbol that is not a fixed token: an integer literal when every character
      is a digit, an identifier otherwise. */
  function WordToken(symbol: string, line: nat): (t: Token)
    ensures AllDigits(symbol) ==> t.kind == IntLit && t.intVal == Some(DecimalValue(symbol) as int)
    ensures !AllDigits(symbol) ==> t.kind == Ident && t.strVal == Some(symbol)
    ensures t.line == line && PayloadMatchesKind(t)
  {
    if AllDigits(symbol) then MakeIntToken(IntLit, DecimalValue(symbol), line).value
    else MakeStrToken(Ident, symbol, line).value
  }

  function EofToken(line: nat): (t: Token)
    ensures t.kind == Eof && t.line == line && PayloadMatchesKind(t)
  {
    MakeToken(Eof, line).value
  }

  /** The two inputs on which the source's pointer arithmetic goes astray. */
  datatype LexError =
    | UnterminatedComment(line: nat)   // "/*" with no "*\/" after it
    | UnterminatedString(line: nat)    // '"' with no closing '"'

  /** What one call of next() yields: the token (or error), the new cursor and line. */
  datatype Lexed = Lexed(token: Result<Token, LexError>, pos: nat, line: nat)

  /** What one pass of the loop in next() does with the character at i: either the call
      ends with a token (or error), or the loop goes on from a new cursor, line and symbol. */
  datatype Move =
    | Emit(lexed: Lexed)
    | Continue(i: nat, line: nat, symbol: string)

  /** The pass that meets a comment opener: a "//" comment runs to the newline, which is
      skipped and counted; a block comment runs to the first star-slash at or after i. */
  function SkipComment(text: string, i: nat, line: nat, lineComment: bool): (m: Move)
    requires i < |text|
    ensures m.Emit? ==> m.lexed.pos == i
    ensures m.Continue? ==> i < m.i <= |text| && m.symbol == []
  {
    if lineComment then
      match FindChar(text, '\n', i)
      case None => Emit(Lexed(Ok(EofToken(line)), i, line))
      case Some(e) => Continue(e + 1, line + CountNewlines(text, i, e + 1), [])
    else
      match FindCommentEnd(text, i)
      case None => Emit(Lexed(Err(UnterminatedComment(line)), i, line))
      case Some(k) => Continue(k + 2, line + CountNewlines(text, i, k + 2), [])
  }

  /** The pass after an opening quote: the literal runs to the next quote; newlines are
      counted up to and including the character after the closing quote. */
  function CutStringLiteral(text: string, i: nat, line: nat): (m: Move)
    requires i < |text|
    ensures m.Emit? && i <= m.lexed.pos <= |text|
  {
    match FindChar(text, '"', i)
    case None => Emit(Lexed(Err(UnterminatedString(line)), i, line))
    case Some(q) =>
      var line' := line + CountNewlines(text, i, if q + 2 <= |text| then q + 2 else |text|);
      Emit(Lexed(Ok(MakeStrToken(StrLit, text[i..q], line').value), q + 1, line'))
  }

  /** The pass that ends a fixed token, taking the character at i along when the two make
      a longer token. */
  function EndFixedToken(symbol: string, c: char, i: nat, line: nat): (m: Move)
    requires IsToken(symbol)
    ensures m.Emit? && (m.lexed.pos == i || m.lexed.pos == i + 1)
  {
    if IsToken(symbol + [c]) then Emit(Lexed(Ok(FixedToken(symbol + [c], line)), i + 1, line))
    else Emit(Lexed(Ok(FixedToken(symbol, line)), i, line))
  }

  /** One pass of the loop in next() at cursor i, on line `line`, with the characters
      accumulated so far in `symbol`. */
  function Step(text: string, i: nat, line: nat, symbol: string): (m: Move)
    requires i < |text|
    ensures m.Emit? ==> i <= m.lexed.pos <= |text|
    ensures m.Continue? ==> i < m.i <= |text|
    ensures m.Emit? && m.lexed.token.Ok? && m.lexed.token.value.kind in {Ident, IntLit} ==>
      m.lexed.pos == i && !IsToken(symbol) && m.lexed.token.value == WordToken(symbol, line)
    ensures m.Emit? && m.lexed.token.Ok? && m.lexed.token.value.kind !in {Ident, IntLit, StrLit, Eof} ==>
      (m.lexed.pos == i && IsToken(symbol) && !IsToken(symbol + [text[i]]) && m.lexed.token.value == FixedToken(symbol, line)) ||
      (m.lexed.pos == i + 1 && IsToken(symbol + [text[i]]) && m.lexed.token.value == FixedToken(symbol + [text[i]], line))
  {
    var c := text[i];
    var accumulate := Continue(i + 1, if c == '\n' then line + 1 else line, if IsSpace(c) then symbol else symbol + [c]);
    if symbol == [] then accumulate
    else if IsCommentStart(symbol + [c]) then
      SkipComment(text, i, line, (symbol + [c])[1] == '/')
    else if symbol[0] == '"' then
      CutStringLiteral(text, i, line)
    else if IsToken(symbol) && (!IsReserved(symbol) || IsTokenChar(c) || IsSpace(c)) then
      EndFixedToken(symbol, c, i, line)
    else if IsSpace(c) || IsTokenChar(c) then
      Emit(Lexed(Ok(WordToken(symbol, line)), i, line))
    else
      accumulate
  }

  /** The loop of next() from cursor i: passes are taken until one ends the call; at the end
      of the text the result is end of file and a pending symbol is dropped. */
  function Scan(text: string, i: nat, line: nat, symbol: string): (r: Lexed)
    requires i <= |text|
    ensures i <= r.pos <= |text|
    decreases |text| - i, 1
  {
    if i == |text| then Lexed(Ok(EofToken(line)), i, line)
    else Resume(text, i, Step(text, i, line, symbol))
  }

  /** What follows the pass at i: its token, or the loop from where the pass left off. */
  function Resume(text: string, i: nat, m: Move): (r: Lexed)
    requires i < |text|
    requires m.Emit? ==> i <= m.lexed.pos <= |text|
    requires m.Continue? ==> i < m.i <= |text|
    ensures i <= r.pos <= |text|
    decreases |text| - i, 0
  {
    match m
    case Emit(l) => l
    case Continue(i', line', symbol') => Scan(text, i', line', symbol')
  }

  /** A pass that goes on leaves the rest of the call to the loop from where it stopped. */
  lemma {:induction false} ScanContinues(text: string, i: nat, line: nat, symbol: string)
    requires i < |text| && Step(text, i, line, symbol).Continue?
    ensures var m := Step(text, i, line, symbol);
      Scan(text, i, line, symbol) == Scan(text, m.i, m.line, m.symbol)
  {
  }

  /** A pass that ends the call decides its result. */
  lemma {:induction false} ScanEmits(text: string, i: nat, line: nat, symbol: string)
    requires i < |text| && Step(text, i, line, symbol).Emit?
    ensures Scan(text, i, line, symbol) == Step(text, i, line, symbol).lexed
  {
  }

  /** next() called with the cursor at pos on line `line`. */
  function NextToken(text: string, pos: nat, line: nat): (r: Lexed)
    requires pos <= |text|
    ensures pos <= r.pos <= |text|
    ensures pos < |text| ==> pos < r.pos
    ensures line <= r.line
    ensures r.token.Ok? ==> r.token.value.kind != Reserved && PayloadMatchesKind(r.token.value) && r.token.value.line == r.line
  {
    ScanWellFormed(text, pos, line, []);
    if pos < |text| then
      ScanContinues(text, pos, line, []);
      Scan(text, pos, line, [])
    else Scan(text, pos, line, [])
  }

  /** What a pending symbol can be: it never holds whitespace, and it never starts a
      comment (the pass that would make it one skips the comment instead). */
  predicate PendingSymbol(symbol: string) {
    (forall k :: 0 <= k < |symbol| ==> !IsSpace(symbol[k])) && !IsCommentStart(symbol)
  }

  /** One pass either appends the character it reads to the symbol or, for whitespace,
      leaves the symbol as it is; only a newline read this way adds one to the line. A
      skipped comment instead clears the symbol. Either way the symbol stays pending. */
  lemma {:induction false} StepAccumulates(text: string, i: nat, line: nat, symbol: string)
    requires i < |text| && PendingSymbol(symbol)
    ensures var m := Step(text, i, line, symbol);
      m.Continue? && m.i == i + 1 ==>
        m.line == (if text[i] == '\n' then line + 1 else line) &&
        m.symbol == (if IsSpace(text[i]) then symbol else symbol + [text[i]])
    ensures var m := Step(text, i, line, symbol);
      m.Continue? ==> PendingSymbol(m.symbol)
  {
    var c := text[i];
    if symbol != [] && IsCommentStart(symbol + [c]) {
      assert |symbol| == 1 && (symbol + [c])[1] == c;
      if c == '/' {
        var e := FindChar(text, '\n', i);
        assert e.Some? ==> e.value > i;
      } else {
        var k := FindCommentEnd(text, i);
        assert k.Some? ==> k.value >= i;
      }
    }
  }

  /** Every token the lexer yields is well formed: never the wildcard kind, the payload that
      its kind calls for, and the line the lexer is on when the token is returned; the line
      counter never goes back. */
  lemma {:induction false} ScanWellFormed(text: string, i: nat, line: nat, symbol: string)
    requires i <= |text|
    ensures var r := Scan(text, i, line, symbol);
      line <= r.line &&
      (r.token.Ok? ==> r.token.value.kind != Reserved && PayloadMatchesKind(r.token.value) && r.token.value.line == r.line)
    decreases |text| - i
  {
    if i < |text| {
      match Step(text, i, line, symbol)
      case Emit(l) =>
      case Continue(i', line', symbol') =>
        ScanWellFormed(text, i', line', symbol');
    }
  }

  /** Counting from one character further on counts one newline less when that
      character is a newline. */
  lemma {:induction false} CountNewlinesFrom(text: string, lo: nat, hi: nat)
    requires lo < hi <= |text|
    ensures CountNewlines(text, lo, hi) ==
      CountNewlines(text, lo + 1, hi) + (if text[lo] == '\n' then 1 else 0)
    decreases hi - lo
  {
    if lo + 1 < hi {
      CountNewlinesFrom(text, lo, hi - 1);
    }
  }

  /** Whitespace between tokens is skipped: reading on from p is reading on from q, on a
      line further on by the newlines between them. */
  lemma {:induction false} SkipWhitespace(text: string, p: nat, q: nat, line: nat)
    requires p <= q <= |text|
    requires forall k :: p <= k < q ==> IsSpace(text[k])
    ensures NextToken(text, p, line) == NextToken(text, q, line + CountNewlines(text, p, q))
    decreases q - p
  {
    if p < q {
      var line' := if text[p] == '\n' then line + 1 else line;
      CountNewlinesFrom(text, p, q);
      var after := line + CountNewlines(text, p, q);
      assert line' + CountNewlines(text, p + 1, q) == after;
      SpaceSkipped(text, p, line);
      SkipWhitespace(text, p + 1, q, line');
    }
  }

  /** One whitespace character is skipped, and counted when it is a newline. */
  lemma {:induction false} SpaceSkipped(text: string, p: nat, line: nat)
    requires p < |text| && IsSpace(text[p])
    ensures NextToken(text, p, line) == NextToken(text, p + 1, if text[p] == '\n' then line + 1 else line)
  {
    assert Step(text, p, line, []) == Continue(p + 1, if text[p] == '\n' then line + 1 else line, []);
    ScanContinues(text, p, line, []);
  }

  /** A character that can sit inside a word: no whitespace, no one-character token, and no
      '|' (which makes the token "||" on its own). */
  predicate WordChar(c: char) {
    !IsSpace(c) && !IsTokenChar(c) && c != '|'
  }

  /** A word: word characters only, and not the start of a string literal or a comment. */
  predicate IsWord(w: string) {
    |w| > 0 && w[0] != '"' && w[0] != '/' && forall k :: 0 <= k < |w| ==> WordChar(w[k])
  }

  /** Every reserved word is in the token table, as a keyword. */
  lemma {:induction false} ReservedWordsAreTokens(w: string)
    ensures IsReserved(w) ==> IsToken(w) && TokenKindOf(w).value in {KwIf, KwWhile, KwReturn, KwVar}
  {
  }

  /** A token spelled in word characters is one of the reserved words. */
  lemma {:induction false} WordTokensAreReserved(w: string)
    requires forall k :: 0 <= k < |w| ==> WordChar(w[k])
    ensures IsToken(w) ==> IsReserved(w)
  {
    if |w| == 1 {
      assert w == [w[0]];
    } else if |w| == 2 && IsToken(w) {
      assert w == "if";
    }
  }

  /** No token is a word followed by whitespace or a one-character token. */
  lemma {:induction false} WordThenDelimiterIsNoToken(w: string, d: char)
    requires |w| > 0 && forall k :: 0 <= k < |w| ==> WordChar(w[k])
    requires IsSpace(d) || IsTokenChar(d)
    ensures !IsToken(w + [d])
  {
    var s := w + [d];
    assert s[|s| - 1] == d && s[0] == w[0];
    if |s| == 2 {
      assert s[1] == d;
    }
  }

  /** Inside a word, one pass appends the next character to the symbol. */
  lemma {:induction false} StepInWord(text: string, p: nat, q: nat, k: nat, line: nat)
    requires p < p + k < q < |text|
    requires IsWord(text[p..q])
    ensures Step(text, p + k, line, text[p..p + k]) == Continue(p + k + 1, line, text[p..p + k + 1])
  {
    var w := text[p..q];
    var symbol := text[p..p + k];
    var c := text[p + k];
    assert symbol[0] == w[0] && symbol == w[..k];
    WordTokensAreReserved(symbol);
    assert WordChar(w[k]) && c == w[k];
    assert symbol + [c] == text[p..p + k + 1];
  }

  /** Inside a word the loop reads on with the word one character longer. */
  lemma {:induction false} ScanInWord(text: string, p: nat, q: nat, k: nat, line: nat)
    requires p < p + k < q < |text|
    requires IsWord(text[p..q])
    ensures Scan(text, p + k, line, text[p..p + k]) == Scan(text, p + k + 1, line, text[p..p + k + 1])
  {
    StepInWord(text, p, q, k, line);
    ScanContinues(text, p + k, line, text[p..p + k]);
  }

  /** At the delimiter after a word, the word is emitted and the delimiter left unread. */
  lemma {:induction false} StepAfterWord(text: string, p: nat, q: nat, line: nat)
    requires p < q < |text|
    requires IsWord(text[p..q])
    requires IsSpace(text[q]) || IsTokenChar(text[q])
    ensures var w := text[p..q];
      Step(text, q, line, w) ==
        Emit(Lexed(Ok(if IsToken(w) then FixedToken(w, line) else WordToken(w, line)), q, line))
  {
    var w := text[p..q];
    WordTokensAreReserved(w);
    WordThenDelimiterIsNoToken(w, text[q]);
  }

  /** At the delimiter after a word the loop returns the word's token. */
  lemma {:induction false} ScanAfterWord(text: string, p: nat, q: nat, line: nat)
    requires p < q < |text|
    requires IsWord(text[p..q])
    requires IsSpace(text[q]) || IsTokenChar(text[q])
    ensures var w := text[p..q];
      Scan(text, q, line, w) == Lexed(Ok(if IsToken(w) then FixedToken(w, line) else WordToken(w, line)), q, line)
  {
    StepAfterWord(text, p, q, line);
    ScanEmits(text, q, line, text[p..q]);
  }

  /** From the k-th character of a word on, the loop reads the rest of the word and
      returns its token at the delimiter. */
  lemma {:induction false} ScanWordFrom(text: string, p: nat, q: nat, k: nat, line: nat)
    requires p < p + k <= q < |text|
    requires IsWord(text[p..q])
    requires IsSpace(text[q]) || IsTokenChar(text[q])
    ensures var w := text[p..q];
      Scan(text, p + k, line, text[p..p + k]) ==
        Lexed(Ok(if IsToken(w) then FixedToken(w, line) else WordToken(w, line)), q, line)
    decreases q - (p + k)
  {
    if p + k < q {
      ScanInWord(text, p, q, k, line);
      ScanWordFrom(text, p, q, k + 1, line);
    } else {
      assert text[p..p + k] == text[p..q];
      ScanAfterWord(text, p, q, line);
    }
  }

  /** A word ended by whitespace or a one-character token is read whole, and the delimiter
      is left for the next call: a reserved word becomes its keyword, an all-digit word an
      integer literal, any other word an identifier. So "iffy" is an identifier. */
  lemma {:induction false} ScanWord(text: string, p: nat, q: nat, line: nat)
    requires p < q < |text|
    requires IsWord(text[p..q])
    requires IsSpace(text[q]) || IsTokenChar(text[q])
    ensures var w := text[p..q];
      NextToken(text, p, line) ==
        Lexed(Ok(if IsReserved(w) then FixedToken(w, line) else WordToken(w, line)), q, line)
  {
    var w := text[p..q];
    assert text[p] == w[0] && WordChar(w[0]);
    NextTokenStartsSymbol(text, p, line);
    assert text[p..p + 1] == [text[p]];
    ScanWordFrom(text, p, q, 1, line);
    WordTokensAreReserved(w);
    ReservedWordsAreTokens(w);
  }

  /** The first character read by next() that is not whitespace starts the symbol. */
  lemma {:induction false} NextTokenStartsSymbol(text: string, p: nat, line: nat)
    requires p < |text| && !IsSpace(text[p])
    ensures NextToken(text, p, line) == Scan(text, p + 1, line, [text[p]])
  {
    assert Step(text, p, line, []) == Continue(p + 1, line, [text[p]]);
    ScanContinues(text, p, line, []);
  }

  /** The pass after a slash that starts a comment skips that comment. */
  lemma {:induction false} StepAfterSlash(text: string, i: nat, line: nat)
    requires i < |text| && (text[i] == '/' || text[i] == '*')
    ensures Step(text, i, line, ['/']) == SkipComment(text, i, line, text[i] == '/')
  {
    assert (['/'] + [text[i]])[1] == text[i];
  }

  /** The pass after an opening quote cuts the string literal. */
  lemma {:induction false} StepAfterQuote(text: string, i: nat, line: nat)
    requires i < |text|
    ensures Step(text, i, line, ['"']) == CutStringLiteral(text, i, line)
  {
    assert (['"'] + [text[i]])[0] == '"';
  }

  /** The pass after an operator or punctuation character ends that token. */
  lemma {:induction false} StepAfterOperator(text: string, i: nat, line: nat, c: char)
    requires i < |text| && IsTokenChar(c)
    ensures Step(text, i, line, [c]) == EndFixedToken([c], text[i], i, line)
  {
    assert ([c] + [text[i]])[0] == c && !IsReserved([c]);
  }

  /** An operator or punctuation character followed by another character: when the two
      make a token (such as "+=" or "&&") both are consumed, otherwise only the first. */
  lemma {:induction false} ScanOperator(text: string, p: nat, line: nat)
    requires p + 1 < |text| && IsTokenChar(text[p])
    ensures var pair := [text[p], text[p + 1]];
      NextToken(text, p, line) ==
        if IsToken(pair) then Lexed(Ok(FixedToken(pair, line)), p + 2, line)
        else Lexed(Ok(FixedToken([text[p]], line)), p + 1, line)
  {
    var c := text[p];
    NextTokenStartsSymbol(text, p, line);
    StepAfterOperator(text, p + 1, line, c);
    ScanEmits(text, p + 1, line, [c]);
    assert [c] + [text[p + 1]] == [c, text[p + 1]];
  }

  /** A string literal holds exactly the characters between its quotes; the cursor is left
      just past the closing quote. The line count takes in the newlines of the literal and
      of the one character after the closing quote. */
  lemma {:induction false} ScanStringLiteral(text: string, p: nat, q: nat, line: nat)
    requires p + 1 <= q < |text| && text[p] == '"' && text[q] == '"'
    requires forall k :: p < k < q ==> text[k] != '"'
    ensures var line' := line + CountNewlines(text, p + 1, if q + 2 <= |text| then q + 2 else |text|);
      NextToken(text, p, line) == Lexed(Ok(Token(StrLit, Some(text[p + 1..q]), None, line')), q + 1, line')
  {
    NextTokenStartsSymbol(text, p, line);
    assert FindChar(text, '"', p + 1) == Some(q);
    StepAfterQuote(text, p + 1, line);
    ScanEmits(text, p + 1, line, ['"']);
  }

  /** A string literal with no closing quote is a lexical error. */
  lemma {:induction false} ScanUnterminatedString(text: string, p: nat, line: nat)
    requires p + 1 < |text| && text[p] == '"'
    requires forall k :: p < k < |text| ==> text[k] != '"'
    ensures NextToken(text, p, line) == Lexed(Err(UnterminatedString(line)), p + 1, line)
  {
    NextTokenStartsSymbol(text, p, line);
    assert FindChar(text, '"', p + 1).None?;
    StepAfterQuote(text, p + 1, line);
    ScanEmits(text, p + 1, line, ['"']);
  }

  /** A stretch that holds a single newline, at its end, counts one line. */
  lemma {:induction false} OneNewline(text: string, a: nat, e: nat)
    requires a <= e < |text| && text[e] == '\n'
    requires forall k :: a <= k < e ==> text[k] != '\n'
    ensures CountNewlines(text, a, e + 1) == 1
    decreases e - a
  {
    if a < e {
      CountNewlinesFrom(text, a, e + 1);
      OneNewline(text, a + 1, e);
    }
  }

  /** A "//" comment is skipped up to and including its newline, which adds one line. */
  lemma {:induction false} ScanLineComment(text: string, p: nat, e: nat, line: nat)
    requires p + 1 < e < |text| && text[p] == '/' && text[p + 1] == '/' && text[e] == '\n'
    requires forall k :: p + 1 < k < e ==> text[k] != '\n'
    ensures NextToken(text, p, line) == NextToken(text, e + 1, line + 1)
  {
    NextTokenStartsSymbol(text, p, line);
    assert FindChar(text, '\n', p + 1) == Some(e);
    StepAfterSlash(text, p + 1, line);
    ScanContinues(text, p + 1, line, ['/']);
    OneNewline(text, p + 1, e);
  }

  /** A "//" comment that runs to the end of the text ends the input: end of file, with the
      cursor left on the comment's second character. */
  lemma {:induction false} ScanUnterminatedLineComment(text: string, p: nat, line: nat)
    requires p + 1 < |text| && text[p] == '/' && text[p + 1] == '/'
    requires forall k :: p + 1 < k < |text| ==> text[k] != '\n'
    ensures NextToken(text, p, line) == Lexed(Ok(EofToken(line)), p + 1, line)
  {
    NextTokenStartsSymbol(text, p, line);
    assert FindChar(text, '\n', p + 1).None?;
    StepAfterSlash(text, p + 1, line);
    ScanEmits(text, p + 1, line, ['/']);
  }

  /** A block comment is skipped up to and including the first star-slash that starts at
      or after its own star, so a star-slash right after the opening slash closes it. The
      newlines inside are counted. */
  lemma {:induction false} ScanBlockComment(text: string, p: nat, k: nat, line: nat)
    requires p + 1 <= k && k + 1 < |text| && text[p] == '/' && text[p + 1] == '*'
    requires text[k] == '*' && text[k + 1] == '/'
    requires forall j :: p + 1 <= j < k ==> !(text[j] == '*' && text[j + 1] == '/')
    ensures NextToken(text, p, line) == NextToken(text, k + 2, line + CountNewlines(text, p + 1, k + 2))
  {
    NextTokenStartsSymbol(text, p, line);
    assert FindCommentEnd(text, p + 1) == Some(k);
    StepAfterSlash(text, p + 1, line);
    ScanContinues(text, p + 1, line, ['/']);
  }

  /** A block comment with no star-slash after it is a lexical error. */
  lemma {:induction false} ScanUnterminatedBlockComment(text: string, p: nat, line: nat)
    requires p + 1 < |text| && text[p] == '/' && text[p + 1] == '*'
    requires forall j :: p + 1 <= j && j + 1 < |text| ==> !(text[j] == '*' && text[j + 1] == '/')
    ensures NextToken(text, p, line) == Lexed(Err(UnterminatedComment(line)), p + 1, line)
  {
    NextTokenStartsSymbol(text, p, line);
    assert FindCommentEnd(text, p + 1).None?;
    StepAfterSlash(text, p + 1, line);
    ScanEmits(text, p + 1, line, ['/']);
  }

  /** At the end of the text the lexer yields end of file on the current line, and a
      symbol still pending is dropped: a text ending in "}" with nothing after it loses the
      brace. */
  lemma {:induction false} ScanPendingSymbolDropped(text: string, p: nat, line: nat)
    requires p + 1 == |text| && !IsSpace(text[p])
    ensures NextToken(text, p, line) == Lexed(Ok(EofToken(line)), |text|, line)
  {
    NextTokenStartsSymbol(text, p, line);
  }

  /** "iffy" is an identifier, not the keyword "if" followed by more. */
  lemma {:induction false} IffyIsIdentifier()
    ensures NextToken("iffy = 1;", 0, 1) == Lexed(Ok(Token(Ident, Some("iffy"), None, 1)), 4, 1)
  {
    var text := "iffy = 1;";
    assert text[0..4] == "iffy";
    assert !IsReserved("iffy");
    ScanWord(text, 0, 4, 1);
  }

  /** "if" followed by a parenthesis is the keyword. */
  lemma {:induction false} IfIsKeyword()
    ensures NextToken("if(x)", 0, 1) == Lexed(Ok(Token(KwIf, None, None, 1)), 2, 1)
  {
    var text := "if(x)";
    assert text[0..2] == "if";
    assert IsReserved("if");
    ScanWord(text, 0, 2, 1);
  }

  /** An all-digit word is an integer literal with its decimal value. */
  lemma {:induction false} DigitsAreIntLiteral()
    ensures NextToken("42;", 0, 3) == Lexed(Ok(Token(IntLit, None, Some(42), 3)), 2, 3)
  {
    var text := "42;";
    assert text[0..2] == "42";
    assert !IsReserved("42");
    assert DecimalValue("42") == 42 by {
      assert "42"[..1] == "4" && "4"[..0] == "";
    }
    ScanWord(text, 0, 2, 3);
  }

  class Lexer {
    const text: string
    var pos: nat
    var line: nat

    ghost predicate Valid()
      reads this
    {
      pos <= |text|
    }

    /** Lexer(stream): the cursor at the start of the text, on line 1. */
    constructor (text: string)
      ensures Valid() && this.text == text && pos == 0 && line == 1
    {
      this.text := text;
      pos := 0;
      line := 1;
    }

    /** One pass of the loop in next(), at cursor i on line ln with pending symbol. */
    method StepAt(i: nat, ln: nat, symbol: string) returns (m: Move)
      requires i < |text|
      ensures m == Step(text, i, ln, symbol)
    {
      var c := text[i];
      if symbol != [] {
        var concat := symbol + [c];
        if IsCommentStart(concat) {
          if concat[1] == '/' {
            var e := FindChar(text, '\n', i);
            if e.None? {
              return Emit(Lexed(Ok(EofToken(ln)), i, ln));
            }
            return Continue(e.value + 1, ln + CountNewlines(text, i, e.value + 1), "");
          }
          var k := FindCommentEnd(text, i);
          if k.None? {
            return Emit(Lexed(Err(UnterminatedComment(ln)), i, ln));
          }
          return Continue(k.value + 2, ln + CountNewlines(text, i, k.value + 2), "");
        }
        if symbol[0] == '"' {
          var q := FindChar(text, '"', i);
          if q.None? {
            return Emit(Lexed(Err(UnterminatedString(ln)), i, ln));
          }
          var ln' := ln + CountNewlines(text, i, if q.value + 2 <= |text| then q.value + 2 else |text|);
          return Emit(Lexed(Ok(MakeStrToken(StrLit, text[i..q.value], ln').value), q.value + 1, ln'));
        }
        if IsToken(symbol) && (!IsReserved(symbol) || IsTokenChar(c) || IsSpace(c)) {
          if IsToken(concat) {
            return Emit(Lexed(Ok(FixedToken(concat, ln)), i + 1, ln));
          }
          return Emit(Lexed(Ok(FixedToken(symbol, ln)), i, ln));
        }
        if IsSpace(c) || IsTokenChar(c) {
          return Emit(Lexed(Ok(WordToken(symbol, ln)), i, ln));
        }
      }
      var symbol' := if IsSpace(c) then symbol else symbol + [c];
      var ln' := if c == '\n' then ln + 1 else ln;
      return Continue(i + 1, ln', symbol');
    }

    /** next(): reads one token, moving the cursor and the line counter. */
    method Next() returns (r: Result<Token, LexError>)
      requires Valid()
      modifies this
      ensures Valid()
      ensures Lexed(r, pos, line) == NextToken(text, old(pos), old(line))
    {
      var symbol := "";
      var i, ln := pos, line;
      while i < |text|
        invariant pos <= i <= |text|
        invariant Scan(text, i, ln, symbol) == NextToken(text, old(pos), old(line))
        decreases |text| - i
      {
        var m := StepAt(i, ln, symbol);
        match m
        case Emit(l) =>
          assert Scan(text, i, ln, symbol) == l;
          r, pos, line := l.token, l.pos, l.line;
          return;
        case Continue(i', ln', symbol') =>
          i, ln, symbol := i', ln', symbol';
      }
      r, pos, line := Ok(EofToken(ln)), i, ln;
    }
  }
}
