/**
 * What one call of the low-level PDF tokenizer computes, as functions of the
 * source bytes and the read position: the byte classes, the lengths of the
 * runs the scanning loops consume, and the step (outcome and new position)
 * of one `next_token` and one `next_non_comment_token` call.
 */
module Lexer {
  import opened Wrappers
  import opened Cursor
  import opened Tokens

  const LF: Byte := 10
  const CR: Byte := 13
  const PERCENT: Byte := 37       // '%'
  const LEFT_PAREN: Byte := 40    // '('
  const RIGHT_PAREN: Byte := 41   // ')'
  const SOLIDUS: Byte := 47       // '/'
  const LESS: Byte := 60          // '<'
  const GREATER: Byte := 62       // '>'
  const LEFT_BRACKET: Byte := 91  // '['
  const BACKSLASH: Byte := 92     // '\'
  const RIGHT_BRACKET: Byte := 93 // ']'

  /** The characters "-+.0123456789" that may make up a number lexeme. */
  const NUMBER_CHARS: seq<Byte> := [45, 43, 46, 48, 49, 50, 51, 52, 53, 54, 55, 56, 57]

  /** NUL, tab, line feed, form feed, carriage return and space. */
  predicate IsWhitespace(b: Byte) {
    b in {0, 9, 10, 12, 13, 32}
  }

  /** The bytes that end a name or a keyword-like run. */
  function IsDelimiter(b: Byte): (r: bool)
    ensures r <==> IsWhitespace(b) || b in {PERCENT, LEFT_PAREN, RIGHT_PAREN, SOLIDUS, LESS, GREATER, LEFT_BRACKET, RIGHT_BRACKET}
  {
    b in {0, 9, 10, 12, 13, 32, 37, 40, 41, 47, 60, 62, 91, 93}
  }

  /** Every whitespace byte also ends a name or a keyword-like run. */
  lemma WhitespaceIsDelimiter(b: Byte)
    ensures IsWhitespace(b) ==> IsDelimiter(b)
  {
  }

  /** The bytes of NUMBER_CHARS. */
  predicate IsNumberChar(b: Byte) {
    b in {43, 45, 46, 48, 49, 50, 51, 52, 53, 54, 55, 56, 57}
  }

  /** Whether `part` occurs as a contiguous piece of `s`: Python's `in` on strings. */
  function Contains(s: seq<Byte>, part: seq<Byte>): bool
    decreases |s|
  {
    part <= s || (|s| > 0 && Contains(s[1..], part))
  }

  /** The empty string occurs in every string; a one-byte string occurs exactly where its byte does. */
  lemma {:induction false} ContainsShort(s: seq<Byte>, part: seq<Byte>)
    requires |part| <= 1
    ensures Contains(s, part) <==> part == [] || part[0] in s
    decreases |s|
  {
    if |s| > 0 {
      ContainsShort(s[1..], part);
      if |part| == 1 {
        assert part <= s <==> part[0] == s[0];
        assert part[0] in s <==> part[0] == s[0] || part[0] in s[1..];
      }
    }
  }

  /** The test `ch in "-+.0123456789"` on what one read returned, `ch` being empty at end of input. */
  function InNumberChars(ch: seq<Byte>): bool
    requires |ch| <= 1
  {
    ch == [] || IsNumberChar(ch[0])
  }

  /**
   * That test is Python's substring test: the empty read at end of input occurs
   * in every string, so it passes.
   */
  lemma NumberTestIsSubstringTest(ch: seq<Byte>)
    requires |ch| <= 1
    ensures InNumberChars(ch) <==> Contains(NUMBER_CHARS, ch)
  {
    ContainsShort(NUMBER_CHARS, ch);
    if |ch| == 1 {
      NumberCharsListed(ch[0]);
    }
  }

  lemma NumberCharsListed(b: Byte)
    ensures IsNumberChar(b) <==> b in NUMBER_CHARS
  {
  }

  /** The byte classes whose runs the scanning loops consume. */
  datatype ByteClass = Blank | Regular | CommentBody | Numeric

  predicate InClass(c: ByteClass, b: Byte) {
    match c
    case Blank => IsWhitespace(b)
    case Regular => !IsDelimiter(b)
    case CommentBody => b != CR && b != LF
    case Numeric => IsNumberChar(b)
  }

  /** The end of the longest run of bytes of class `c` starting at `i`. */
  function RunEnd(data: seq<Byte>, i: nat, c: ByteClass): (e: nat)
    requires i <= |data|
    ensures i <= e <= |data|
    ensures forall k :: i <= k < e ==> InClass(c, data[k])
    ensures e < |data| ==> !InClass(c, data[e])
    decreases |data| - i
  {
    if i == |data| || !InClass(c, data[i]) then i else RunEnd(data, i + 1, c)
  }

  /** Just past the first '>' at or after `i`, or the end of input when there is none. */
  function HexEnd(data: seq<Byte>, i: nat): (e: nat)
    requires i <= |data|
    ensures i <= e <= |data|
    ensures forall k :: i <= k < e - 1 ==> data[k] != GREATER
    ensures e < |data| ==> i < e && data[e - 1] == GREATER
    decreases |data| - i
  {
    if i == |data| then i
    else if data[i] == GREATER then i + 1
    else HexEnd(data, i + 1)
  }

  /**
   * The end of a literal string whose body is scanned from `i` with `level`
   * unclosed parentheses: a backslash takes the next byte with it, unescaped
   * parentheses move the level, and the ')' that closes the last one ends the
   * string. None when the input ends first.
   */
  function StringEnd(data: seq<Byte>, i: nat, level: nat): (r: Option<nat>)
    requires i <= |data| && level >= 1
    ensures r.Some? ==> i < r.value <= |data|
    decreases |data| - i
  {
    if i == |data| then None
    else if data[i] == BACKSLASH then
      if i + 1 == |data| then None else StringEnd(data, i + 2, level)
    else if data[i] == LEFT_PAREN then StringEnd(data, i + 1, level + 1)
    else if data[i] == RIGHT_PAREN then
      if level == 1 then Some(i + 1) else StringEnd(data, i + 1, level - 1)
    else StringEnd(data, i + 1, level)
  }

  /** The two malformed-input conditions. */
  datatype LexError = UnexpectedAfterGreater | UnterminatedString

  /** What one call reports: a token, the end of input (None), or a failure. */
  datatype Outcome = Produced(lexeme: Lexeme) | EndOfInput | Failed(error: LexError)

  /** The outcome of one call and the read position it leaves behind. */
  datatype Step = Step(outcome: Outcome, pos: nat)

  predicate IsComment(s: Step) {
    s.outcome.Produced? && s.outcome.lexeme.kind == Comment
  }

  /** A token whose lexeme spans data[start..e], with the position left at e. */
  function Span(data: seq<Byte>, start: nat, e: nat, kind: TokenType): Step
    requires start <= e <= |data|
  {
    Step(Produced(Lexeme(start, kind, data[start..e])), e)
  }

  /** A Name: '/' and the run of non-delimiters after it. */
  function NameStep(data: seq<Byte>, start: nat): Step
    requires start < |data|
  {
    Span(data, start, RunEnd(data, start + 1, Regular), Name)
  }

  /** After '>': a second '>' closes a dictionary; anything else is a failure, with that byte consumed. */
  function EndDictStep(data: seq<Byte>, start: nat): Step
    requires start < |data|
  {
    if start + 1 < |data| && data[start + 1] == GREATER then Span(data, start, start + 2, EndDict)
    else Step(Failed(UnexpectedAfterGreater), if start + 1 < |data| then start + 2 else |data|)
  }

  /** A Comment: '%' and the bytes up to a carriage return or line feed. */
  function CommentStep(data: seq<Byte>, start: nat): Step
    requires start < |data|
  {
    Span(data, start, RunEnd(data, start, CommentBody), Comment)
  }

  /** After '<': "<<", "<>", or a hex string up to the first later '>' (or the end of input). */
  function HexOrDictStep(data: seq<Byte>, start: nat): Step
    requires start < |data|
  {
    if start + 1 == |data| then Span(data, start, start + 1, HexString)
    else if data[start + 1] == LESS then Span(data, start, start + 2, StartDict)
    else if data[start + 1] == GREATER then Span(data, start, start + 2, HexString)
    else Span(data, start, HexEnd(data, start + 2), HexString)
  }

  /** A Number: the run of number characters from the lead byte. */
  function NumberStep(data: seq<Byte>, start: nat): Step
    requires start < |data|
  {
    Span(data, start, RunEnd(data, start, Numeric), Number)
  }

  /** A literal String, or a failure when the input ends before it closes. */
  function StringStep(data: seq<Byte>, start: nat): Step
    requires start < |data|
  {
    match StringEnd(data, start + 1, 1)
    case Some(e) => Span(data, start, e, String)
    case None => Step(Failed(UnterminatedString), |data|)
  }

  /** Other: the run of non-delimiters from the lead byte, empty when the lead byte is ')'. */
  function OtherStep(data: seq<Byte>, start: nat): Step
    requires start < |data|
  {
    Span(data, start, RunEnd(data, start, Regular), Other)
  }

  /** One call, dispatched on the lead byte at `start` (whitespace already skipped). */
  function LexemeAt(data: seq<Byte>, start: nat): (s: Step)
    requires start < |data| && !IsWhitespace(data[start])
    ensures s.pos <= |data|
    ensures s.outcome.Produced? ==>
      var l := s.outcome.lexeme;
      l.byteOffset == start && start + |l.text| == s.pos && data[start..s.pos] == l.text
  {
    var b := data[start];
    if b == LEFT_BRACKET then Span(data, start, start + 1, StartArray)
    else if b == RIGHT_BRACKET then Span(data, start, start + 1, EndArray)
    else if b == SOLIDUS then NameStep(data, start)
    else if b == GREATER then EndDictStep(data, start)
    else if b == PERCENT then CommentStep(data, start)
    else if b == LESS then HexOrDictStep(data, start)
    else if IsNumberChar(b) then NumberStep(data, start)
    else if b == LEFT_PAREN then StringStep(data, start)
    else OtherStep(data, start)
  }

  /** Which branch the lead byte selects. */
  lemma LexemeAtLead(data: seq<Byte>, start: nat)
    requires start < |data| && !IsWhitespace(data[start])
    ensures var b := data[start];
      (b == LEFT_BRACKET ==> LexemeAt(data, start) == Span(data, start, start + 1, StartArray)) &&
      (b == RIGHT_BRACKET ==> LexemeAt(data, start) == Span(data, start, start + 1, EndArray)) &&
      (b == SOLIDUS ==> LexemeAt(data, start) == NameStep(data, start)) &&
      (b == GREATER ==> LexemeAt(data, start) == EndDictStep(data, start)) &&
      (b == PERCENT ==> LexemeAt(data, start) == CommentStep(data, start)) &&
      (b == LESS ==> LexemeAt(data, start) == HexOrDictStep(data, start)) &&
      (IsNumberChar(b) ==> LexemeAt(data, start) == NumberStep(data, start)) &&
      (b == LEFT_PAREN ==> LexemeAt(data, start) == StringStep(data, start)) &&
      (b !in {LEFT_BRACKET, RIGHT_BRACKET, SOLIDUS, GREATER, PERCENT, LESS, LEFT_PAREN} && !IsNumberChar(b) ==>
        LexemeAt(data, start) == OtherStep(data, start))
  {
  }

  /** The step of a call that finds only whitespace left: an empty Number at the last byte. */
  function TrailingWhitespaceStep(data: seq<Byte>): Step
    requires |data| > 0
  {
    Step(Produced(Lexeme(|data| - 1, Number, [])), |data|)
  }

  /**
   * One `next_token` call from position `pos`. When only whitespace is left,
   * the empty read that ends the skip passes the number test, and the call
   * yields an empty Number token at the offset of the last byte.
   */
  function NextLexeme(data: seq<Byte>, pos: nat): (s: Step)
    ensures s.outcome.EndOfInput? <==> pos >= |data|
    ensures s.outcome.EndOfInput? ==> s.pos == pos
    ensures pos < |data| ==> s.pos <= |data|
    ensures IsComment(s) ==> pos < s.pos
  {
    if pos >= |data| then Step(EndOfInput, pos)
    else
      var start := RunEnd(data, pos, Blank);
      if start == |data| then TrailingWhitespaceStep(data)
      else LexemeAt(data, start)
  }

  /** One `next_non_comment_token` call: `next_token` repeated while it yields comments. */
  function NextNonCommentLexeme(data: seq<Byte>, pos: nat): (s: Step)
    ensures !IsComment(s)
    decreases |data| - pos
  {
    var s := NextLexeme(data, pos);
    if IsComment(s) then NextNonCommentLexeme(data, s.pos) else s
  }
}
