/**
 * Properties of what one tokenizer call computes: where a token's bytes come
 * from, what each kind of lexeme looks like, the behaviour at end of input and
 * the two quirks of the scan (trailing whitespace, a lone ')').
 */
module LexerProperties {
  import opened Wrappers
  import opened Cursor
  import opened Tokens
  import opened Lexer

  /** Nothing but whitespace from `pos` to the end of input. */
  ghost predicate OnlyWhitespaceFrom(data: seq<Byte>, pos: nat) {
    forall k :: pos <= k < |data| ==> IsWhitespace(data[k])
  }

  /** Some byte other than whitespace is left, so a call scans a real lexeme. */
  ghost predicate HasLexeme(data: seq<Byte>, pos: nat) {
    pos < |data| && !OnlyWhitespaceFrom(data, pos)
  }

  /** The offset of the lead byte of the lexeme a call from `pos` scans. */
  function Lead(data: seq<Byte>, pos: nat): (b: nat)
    requires HasLexeme(data, pos)
    ensures pos <= b < |data| && !IsWhitespace(data[b])
    ensures forall k :: pos <= k < b ==> IsWhitespace(data[k])
  {
    RunEnd(data, pos, Blank)
  }

  /** At end of input a call reports None and does not move, so the next call reports None again. */
  lemma EndOfInputIsSticky(data: seq<Byte>, pos: nat)
    ensures NextLexeme(data, pos).outcome.EndOfInput? <==> pos >= |data|
    ensures pos >= |data| ==> NextLexeme(data, pos).pos == pos && NextLexeme(data, NextLexeme(data, pos).pos) == NextLexeme(data, pos)
  {
  }

  /**
   * Apart from trailing whitespace, a token is the source bytes from its offset
   * to the position the call leaves, after a run of skipped whitespace.
   */
  lemma TokenSpansSource(data: seq<Byte>, pos: nat)
    requires HasLexeme(data, pos)
    ensures var s := NextLexeme(data, pos);
      s.outcome.Produced? ==>
        var l := s.outcome.lexeme;
        l.byteOffset == Lead(data, pos) &&
        l.byteOffset + |l.text| == s.pos <= |data| &&
        data[l.byteOffset..s.pos] == l.text
  {
  }

  /**
   * Whitespace that runs into the end of input yields an empty Number token at
   * the offset of the last byte, and only then is an empty Number produced.
   */
  lemma TrailingWhitespaceGivesEmptyNumber(data: seq<Byte>, pos: nat)
    requires pos < |data|
    ensures OnlyWhitespaceFrom(data, pos) <==>
            NextLexeme(data, pos) == Step(Produced(Lexeme(|data| - 1, Number, [])), |data|)
  {
  }

  /**
   * Seeking to a produced token's own offset and scanning again gives the same
   * token and the same end position, the trailing-whitespace token included.
   */
  lemma RescanFromOffset(data: seq<Byte>, pos: nat)
    requires NextLexeme(data, pos).outcome.Produced?
    ensures NextLexeme(data, NextLexeme(data, pos).outcome.lexeme.byteOffset) == NextLexeme(data, pos)
  {
  }

  /** '[' and ']' are one-byte StartArray and EndArray tokens. */
  lemma ArrayBracketLexeme(data: seq<Byte>, pos: nat)
    requires HasLexeme(data, pos)
    requires data[Lead(data, pos)] == LEFT_BRACKET || data[Lead(data, pos)] == RIGHT_BRACKET
    ensures var b := Lead(data, pos);
      NextLexeme(data, pos) ==
        Step(Produced(Lexeme(b, if data[b] == LEFT_BRACKET then StartArray else EndArray, [data[b]])), b + 1)
  {
  }

  /**
   * A call yields an Other token exactly when the lead byte has no branch of
   * its own: not a bracket, '/', '>', '%', '<', '(' or a number byte.
   */
  lemma OtherLead(data: seq<Byte>, pos: nat)
    requires HasLexeme(data, pos)
    ensures var b, s := data[Lead(data, pos)], NextLexeme(data, pos);
      (s.outcome.Produced? && s.outcome.lexeme.kind == Other) <==>
      (b !in {LEFT_BRACKET, RIGHT_BRACKET, SOLIDUS, GREATER, PERCENT, LESS, LEFT_PAREN} && !IsNumberChar(b))
  {
  }

  /** A Name is '/' followed by the longest run of non-delimiters; the delimiter after it is left unread. */
  lemma NameLexeme(data: seq<Byte>, pos: nat)
    requires HasLexeme(data, pos) && data[Lead(data, pos)] == SOLIDUS
    ensures var s := NextLexeme(data, pos);
      s.outcome.Produced? && s.outcome.lexeme.kind == Name &&
      var t := s.outcome.lexeme.text;
      |t| >= 1 && t[0] == SOLIDUS &&
      (forall k :: 1 <= k < |t| ==> !IsDelimiter(t[k])) &&
      (s.pos == |data| || IsDelimiter(data[s.pos]))
  {
  }

  /**
   * An Other token holds no delimiter and ends at a delimiter or the end of
   * input. Its text is empty exactly when the lead byte is a lone ')'.
   */
  lemma OtherLexeme(data: seq<Byte>, pos: nat)
    requires HasLexeme(data, pos)
    ensures var s := NextLexeme(data, pos);
      s.outcome.Produced? && s.outcome.lexeme.kind == Other ==>
      var t := s.outcome.lexeme.text;
      (forall k :: 0 <= k < |t| ==> !IsDelimiter(t[k])) &&
      (s.pos == |data| || IsDelimiter(data[s.pos])) &&
      (t == [] <==> data[Lead(data, pos)] == RIGHT_PAREN)
  {
  }

  /** A lone ')' yields an empty Other token and leaves the position on the ')', so every later call yields it again. */
  lemma LoneRightParenStalls(data: seq<Byte>, pos: nat)
    requires HasLexeme(data, pos) && data[Lead(data, pos)] == RIGHT_PAREN
    ensures var b := Lead(data, pos);
      NextLexeme(data, pos) == Step(Produced(Lexeme(b, Other, [])), b) &&
      NextLexeme(data, b) == NextLexeme(data, pos)
  {
  }

  /**
   * A Number is the longest run of "-+.0123456789" bytes from the lead byte,
   * taken as it is; the byte after it is left unread.
   */
  lemma NumberLexeme(data: seq<Byte>, pos: nat)
    requires HasLexeme(data, pos) && IsNumberChar(data[Lead(data, pos)])
    ensures var s := NextLexeme(data, pos);
      s.outcome.Produced? && s.outcome.lexeme.kind == Number &&
      var t := s.outcome.lexeme.text;
      |t| >= 1 && (forall k :: 0 <= k < |t| ==> IsNumberChar(t[k])) &&
      (s.pos == |data| || !IsNumberChar(data[s.pos]))
  {
  }

  /** "1.2.3" is one Number token with that text: no numeric validation. */
  lemma MalformedNumberKept()
    ensures NextLexeme([49, 46, 50, 46, 51], 0) == Step(Produced(Lexeme(0, Number, [49, 46, 50, 46, 51])), 5)
  {
  }

  /**
   * A Comment is '%' and the bytes up to, not including, the first carriage
   * return or line feed, which is left unread.
   */
  lemma CommentLexeme(data: seq<Byte>, pos: nat)
    requires HasLexeme(data, pos) && data[Lead(data, pos)] == PERCENT
    ensures var s := NextLexeme(data, pos);
      s.outcome.Produced? && s.outcome.lexeme.kind == Comment &&
      var t := s.outcome.lexeme.text;
      |t| >= 1 && t[0] == PERCENT &&
      (forall k :: 0 <= k < |t| ==> t[k] != CR && t[k] != LF) &&
      (s.pos == |data| || data[s.pos] == CR || data[s.pos] == LF)
  {
  }

  /** A '>' must be followed by a second '>'; anything else, the end of input included, is a failure. */
  lemma GreaterLexeme(data: seq<Byte>, pos: nat)
    requires HasLexeme(data, pos) && data[Lead(data, pos)] == GREATER
    ensures var b := Lead(data, pos);
      if b + 1 < |data| && data[b + 1] == GREATER
      then NextLexeme(data, pos) == Step(Produced(Lexeme(b, EndDict, [GREATER, GREATER])), b + 2)
      else NextLexeme(data, pos).outcome == Failed(UnexpectedAfterGreater)
  {
  }

  /**
   * A '<' opens a dictionary when a second '<' follows. Otherwise it starts a
   * hex string: "<>" is the empty one, any other runs up to and including the
   * first later '>', or up to the end of input when there is none (no failure).
   */
  lemma LessLexeme(data: seq<Byte>, pos: nat)
    requires HasLexeme(data, pos) && data[Lead(data, pos)] == LESS
    ensures var b, s := Lead(data, pos), NextLexeme(data, pos);
      s.outcome.Produced? &&
      var t := s.outcome.lexeme.text;
      if b + 1 < |data| && data[b + 1] == LESS then
        s == Step(Produced(Lexeme(b, StartDict, [LESS, LESS])), b + 2)
      else
        s.outcome.lexeme.kind == HexString && |t| >= 1 && t[0] == LESS &&
        (forall k :: 1 <= k < |t| - 1 ==> t[k] != GREATER) &&
        ((|t| >= 2 && t[|t| - 1] == GREATER) || (s.pos == |data| && forall k :: 1 <= k < |t| ==> t[k] != GREATER))
  {
  }

  /** "<>" is an empty hex string. */
  lemma EmptyHexString(data: seq<Byte>, pos: nat)
    requires HasLexeme(data, pos)
    requires var b := Lead(data, pos); data[b] == LESS && b + 1 < |data| && data[b + 1] == GREATER
    ensures var b := Lead(data, pos); NextLexeme(data, pos) == Step(Produced(Lexeme(b, HexString, [LESS, GREATER])), b + 2)
  {
  }

  /** The scanner never produces the reserved kinds, nor one for the end of input. */
  lemma ReservedKindsNeverProduced(data: seq<Byte>, pos: nat)
    ensures var s := NextLexeme(data, pos);
      s.outcome.Produced? ==> s.outcome.lexeme.kind !in {Ref, Obj, EndObj, EndOfFile}
  {
  }

  // ---- Literal strings ----

  /**
   * In a literal string whose '(' is at `b`, the byte at `k` is escaped when it
   * follows a backslash that is not itself escaped.
   */
  ghost predicate Escaped(s: seq<Byte>, b: nat, k: nat)
    requires b < k < |s|
    decreases k
  {
    k - 1 > b && s[k - 1] == BACKSLASH && !Escaped(s, b, k - 1)
  }

  /** How the byte at `k` moves the nesting counter: unescaped parentheses only. */
  ghost function Delta(s: seq<Byte>, b: nat, k: nat): int
    requires b < k < |s|
  {
    if Escaped(s, b, k) then 0
    else if s[k] == LEFT_PAREN then 1
    else if s[k] == RIGHT_PAREN then -1
    else 0
  }

  /** The nesting counter once the bytes strictly between `b` and `n` have been seen; it starts at 1. */
  ghost function Depth(s: seq<Byte>, b: nat, n: nat): int
    requires b < n <= |s|
    decreases n
  {
    if n == b + 1 then 1 else Depth(s, b, n - 1) + Delta(s, b, n - 1)
  }

  /** A complete literal string: '(' ... ')' whose last byte, and only it, brings the counter from 1 to 0. */
  ghost predicate IsBalancedLiteral(t: seq<Byte>) {
    |t| >= 2 && t[0] == LEFT_PAREN && t[|t| - 1] == RIGHT_PAREN && !Escaped(t, 0, |t| - 1) &&
    Depth(t, 0, |t|) == 0 && forall n :: 0 < n < |t| ==> Depth(t, 0, n) >= 1
  }

  /** The body scan stops at the first position where the counter reaches 0, or fails when it never does. */
  lemma {:induction false} StringEndIsFirstZero(data: seq<Byte>, b: nat, i: nat, level: nat)
    requires b < i <= |data| && level >= 1
    requires level == Depth(data, b, i)
    requires i < |data| ==> !Escaped(data, b, i)
    ensures match StringEnd(data, i, level)
      case Some(e) => Depth(data, b, e) == 0 && forall n :: i <= n < e ==> Depth(data, b, n) >= 1
      case None => forall n :: i <= n <= |data| ==> Depth(data, b, n) >= 1
    decreases |data| - i
  {
    if i == |data| {
    } else if data[i] == BACKSLASH {
      assert Depth(data, b, i + 1) == level;
      if i + 1 < |data| {
        assert Escaped(data, b, i + 1);
        assert Depth(data, b, i + 2) == level;
        if i + 2 < |data| {
          assert !Escaped(data, b, i + 2);
        }
        StringEndIsFirstZero(data, b, i + 2, level);
      }
    } else if data[i] == LEFT_PAREN {
      assert Depth(data, b, i + 1) == level + 1;
      if i + 1 < |data| {
        assert !Escaped(data, b, i + 1);
      }
      StringEndIsFirstZero(data, b, i + 1, level + 1);
    } else if data[i] == RIGHT_PAREN {
      assert Depth(data, b, i + 1) == level - 1;
      if level > 1 {
        if i + 1 < |data| {
          assert !Escaped(data, b, i + 1);
        }
        StringEndIsFirstZero(data, b, i + 1, level - 1);
      }
    } else {
      assert Depth(data, b, i + 1) == level;
      if i + 1 < |data| {
        assert !Escaped(data, b, i + 1);
      }
      StringEndIsFirstZero(data, b, i + 1, level);
    }
  }

  /** Escapes in a slice are those of the whole input, shifted. */
  lemma {:induction false} EscapedShift(data: seq<Byte>, b: nat, e: nat, k: nat)
    requires b < k < e <= |data|
    ensures Escaped(data[b..e], 0, k - b) == Escaped(data, b, k)
    decreases k
  {
    if k - 1 > b {
      EscapedShift(data, b, e, k - 1);
    }
  }

  /** The counter on a slice is that on the whole input, shifted. */
  lemma {:induction false} DepthShift(data: seq<Byte>, b: nat, e: nat, n: nat)
    requires b < n <= e <= |data|
    ensures Depth(data[b..e], 0, n - b) == Depth(data, b, n)
    decreases n
  {
    if n > b + 1 {
      DepthShift(data, b, e, n - 1);
      EscapedShift(data, b, e, n - 1);
    }
  }

  /** Bytes from a '(' to the first position where the counter reaches 0 form a balanced literal string. */
  lemma FirstZeroIsBalanced(data: seq<Byte>, b: nat, e: nat)
    requires b < e <= |data| && data[b] == LEFT_PAREN
    requires Depth(data, b, e) == 0 && forall n :: b < n < e ==> Depth(data, b, n) >= 1
    ensures IsBalancedLiteral(data[b..e])
  {
    var t := data[b..e];
    assert e - 1 > b;
    assert Delta(data, b, e - 1) == -1;
    DepthShift(data, b, e, e);
    EscapedShift(data, b, e, e - 1);
    forall n | 0 < n < |t|
      ensures Depth(t, 0, n) >= 1
    {
      DepthShift(data, b, e, b + n);
    }
  }

  /** A call whose lead byte is '(' runs the literal-string scan. */
  lemma LeadParenScansString(data: seq<Byte>, pos: nat)
    requires HasLexeme(data, pos) && data[Lead(data, pos)] == LEFT_PAREN
    ensures NextLexeme(data, pos) == StringStep(data, Lead(data, pos))
  {
  }

  /**
   * A '(' starts a literal string that ends with the unescaped ')' bringing the
   * counter to 0; a backslash and the byte after it are kept and move nothing.
   * When the input ends first the call fails.
   */
  lemma StringLexeme(data: seq<Byte>, pos: nat)
    requires HasLexeme(data, pos) && data[Lead(data, pos)] == LEFT_PAREN
    ensures var b, s := Lead(data, pos), NextLexeme(data, pos);
      (s.outcome.Produced? && s.outcome.lexeme.kind == String && IsBalancedLiteral(s.outcome.lexeme.text)) ||
      (s == Step(Failed(UnterminatedString), |data|) && forall n :: b < n <= |data| ==> Depth(data, b, n) >= 1)
  {
    var b := Lead(data, pos);
    LeadParenScansString(data, pos);
    if b + 1 < |data| {
      assert !Escaped(data, b, b + 1);
    }
    StringEndIsFirstZero(data, b, b + 1, 1);
    match StringEnd(data, b + 1, 1)
    case Some(e) =>
      FirstZeroIsBalanced(data, b, e);
    case None =>
  }

  // ---- Skipping comments ----

  /** `n` successive `next_token` calls from `pos` each yield a comment, and leave the position at `q`. */
  ghost predicate CommentsLeadTo(data: seq<Byte>, pos: nat, n: nat, q: nat)
    decreases n
  {
    if n == 0 then q == pos
    else IsComment(NextLexeme(data, pos)) && CommentsLeadTo(data, NextLexeme(data, pos).pos, n - 1, q)
  }

  /**
   * `next_non_comment_token` reports what the first call that does not yield
   * a comment reports, all calls before it having yielded comments.
   */
  lemma {:induction false} NonCommentIsFirstNonComment(data: seq<Byte>, pos: nat) returns (n: nat, q: nat)
    ensures CommentsLeadTo(data, pos, n, q)
    ensures !IsComment(NextLexeme(data, q))
    ensures NextNonCommentLexeme(data, pos) == NextLexeme(data, q)
    decreases |data| - pos
  {
    var s := NextLexeme(data, pos);
    if !IsComment(s) {
      n, q := 0, pos;
    } else {
      var m, r := NonCommentIsFirstNonComment(data, s.pos);
      assert NextNonCommentLexeme(data, pos) == NextNonCommentLexeme(data, s.pos);
      n, q := m + 1, r;
    }
  }
}
