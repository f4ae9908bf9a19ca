/**
 * The low-level tokenizer: it pulls one byte at a time from its byte source,
 * classifies the lexeme by its lead byte and hands out a Token, nothing at end
 * of input, or one of the two malformed-input errors. The scanning methods
 * are proved to do exactly what the functions of module Lexer say one call
 * does; `Seek` and `Tell` pass through to the byte source and are proved
 * against `SeekTarget` and its position.
 */
module Tokenizer {
  import opened Wrappers
  import opened Cursor
  import opened Tokens
  import opened Lexer

  /** Extending a slice by one byte appends that byte. */
  lemma SliceExtend(data: seq<Byte>, a: nat, b: nat)
    requires a <= b < |data|
    ensures data[a..b + 1] == data[a..b] + [data[b]]
  {
  }

  class LowLevelTokenizer {
    const source: ByteSource

    constructor (source: ByteSource)
      ensures this.source == source
    {
      this.source := source;
    }

    /** The returned pair reports outcome `o`: a token with its value, no token (end of input), or an error. */
    predicate Reports(t: Token?, error: Option<LexError>, o: Outcome)
      reads t
    {
      match o
      case EndOfInput => t == null && error == None
      case Failed(e) => t == null && error == Some(e)
      case Produced(l) => t != null && error == None && t.Value() == l
    }

    /** The call reported step `s` and left the source where `s` says. */
    predicate Performed(t: Token?, error: Option<LexError>, s: Step)
      reads source, t
    {
      source.pos == s.pos && Reports(t, error, s.outcome)
    }

    /** The lead byte `b` of a lexeme was the last byte read. */
    predicate JustRead(b: Byte)
      reads source
    {
      1 <= source.pos <= |source.data| && source.data[source.pos - 1] == b
    }

    /** Returns the next token, None at end of input, or the malformed-input error that stopped the scan. */
    method NextToken() returns (t: Token?, error: Option<LexError>)
      modifies source
      ensures Performed(t, error, NextLexeme(source.data, old(source.pos)))
      ensures t != null ==> fresh(t)
    {
      var ch := source.NextChar();
      if |ch| == 0 {
        return null, None;
      }
      ch := SkipWhitespace(ch);
      t, error := ScanLexeme(ch);
    }

    /**
     * Reads on while the byte just read is whitespace. Ends with the lead byte of
     * the next lexeme just read, or with an empty read at the end of input.
     */
    method SkipWhitespace(first: seq<Byte>) returns (ch: seq<Byte>)
      requires |first| == 1 && 1 <= source.pos <= |source.data| && first == [source.data[source.pos - 1]]
      modifies source
      ensures |ch| <= 1 && 1 <= source.pos <= |source.data|
      ensures |ch| == 0 ==> source.pos == |source.data| == RunEnd(source.data, old(source.pos) - 1, Blank)
      ensures |ch| == 1 ==> ch == [source.data[source.pos - 1]] && source.pos - 1 == RunEnd(source.data, old(source.pos) - 1, Blank)
    {
      ghost var data, p0 := source.data, source.pos - 1;
      ch := first;
      while |ch| > 0 && IsWhitespace(ch[0])
        invariant |ch| <= 1 && p0 < source.pos <= |data|
        invariant |ch| == 1 ==> ch == [data[source.pos - 1]]
        invariant |ch| == 0 ==> source.pos == |data|
        invariant RunEnd(data, source.pos - |ch|, Blank) == RunEnd(data, p0, Blank)
        decreases |data| - source.pos + |ch|
      {
        ch := source.NextChar();
      }
    }

    /** Dispatches on the lead byte just read (or on the empty read that whitespace ran into). */
    method ScanLexeme(ch: seq<Byte>) returns (t: Token?, error: Option<LexError>)
      requires |ch| <= 1 && 1 <= source.pos <= |source.data|
      requires |ch| == 0 ==> source.pos == |source.data|
      requires |ch| == 1 ==> ch == [source.data[source.pos - 1]] && !IsWhitespace(ch[0])
      modifies source
      ensures Performed(t, error,
        if ch == [] then TrailingWhitespaceStep(source.data) else LexemeAt(source.data, old(source.pos) - 1))
      ensures t != null ==> fresh(t)
    {
      if |ch| == 1 {
        LexemeAtLead(source.data, source.pos - 1);
      }
      if ch == [LEFT_BRACKET] {
        t := new Token(source.Tell() - 1, StartArray, [LEFT_BRACKET]);
        return t, None;
      }
      if ch == [RIGHT_BRACKET] {
        t := new Token(source.Tell() - 1, EndArray, [RIGHT_BRACKET]);
        return t, None;
      }
      if ch == [SOLIDUS] {
        t, error := ScanName();
        return;
      }
      if ch == [GREATER] {
        t, error := ScanEndDict();
        return;
      }
      if ch == [PERCENT] {
        t, error := ScanComment();
        return;
      }
      if ch == [LESS] {
        t, error := ScanHexStringOrDict();
        return;
      }
      if InNumberChars(ch) {
        t, error := ScanNumber(ch);
        return;
      }
      if ch == [LEFT_PAREN] {
        t, error := ScanString();
        return;
      }
      t, error := ScanOther(ch);
    }

    /** The Name branch: '/' and the bytes up to the next delimiter, which is pushed back. */
    method ScanName() returns (t: Token?, error: Option<LexError>)
      requires JustRead(SOLIDUS)
      modifies source
      ensures Performed(t, error, NameStep(source.data, old(source.pos) - 1))
      ensures t != null ==> fresh(t)
    {
      ghost var data := source.data;
      var outStr := [SOLIDUS];
      var outPos := source.Tell() - 1;
      var ch := [SOLIDUS];
      while true
        invariant outPos < source.pos <= |data|
        invariant outStr == data[outPos..source.pos]
        invariant RunEnd(data, source.pos, Regular) == RunEnd(data, outPos + 1, Regular)
        decreases |data| - source.pos
      {
        ch := source.NextChar();
        if |ch| == 0 {
          break;
        }
        if IsDelimiter(ch[0]) {
          break;
        }
        outStr := outStr + ch;
      }
      if |ch| != 0 {
        var _ := source.PrevChar();
      }
      t := new Token(outPos, Name, outStr);
      error := None;
    }

    /** The EndDict branch: '>' must be followed by a second '>'. */
    method ScanEndDict() returns (t: Token?, error: Option<LexError>)
      requires JustRead(GREATER)
      modifies source
      ensures Performed(t, error, EndDictStep(source.data, old(source.pos) - 1))
      ensures t != null ==> fresh(t)
    {
      var outPos := source.Tell() - 1;
      var ch := source.NextChar();
      if ch != [GREATER] {
        return null, Some(UnexpectedAfterGreater);
      }
      t := new Token(outPos, EndDict, [GREATER, GREATER]);
      error := None;
    }

    /** The Comment branch: '%' and the bytes up to a carriage return or line feed, which is pushed back. */
    method ScanComment() returns (t: Token?, error: Option<LexError>)
      requires JustRead(PERCENT)
      modifies source
      ensures Performed(t, error, CommentStep(source.data, old(source.pos) - 1))
      ensures t != null ==> fresh(t)
    {
      ghost var data := source.data;
      var outStr := [];
      var outPos := source.Tell() - 1;
      var ch := [PERCENT];
      while |ch| != 0 && ch[0] != CR && ch[0] != LF
        invariant |ch| <= 1 && outPos < source.pos <= |data|
        invariant |ch| == 1 ==> ch == [data[source.pos - 1]]
        invariant |ch| == 0 ==> source.pos == |data|
        invariant outStr == data[outPos..source.pos - |ch|]
        invariant RunEnd(data, source.pos - |ch|, CommentBody) == RunEnd(data, outPos, CommentBody)
        decreases |data| - source.pos + |ch|
      {
        SliceExtend(data, outPos, source.pos - 1);
        outStr := outStr + ch;
        ch := source.NextChar();
      }
      if |ch| != 0 {
        var _ := source.PrevChar();
      }
      t := new Token(outPos, Comment, outStr);
      error := None;
    }

    /** The '<' branch: "<<" opens a dictionary, "<>" is an empty hex string, else a hex string up to and including '>'. */
    method ScanHexStringOrDict() returns (t: Token?, error: Option<LexError>)
      requires JustRead(LESS)
      modifies source
      ensures Performed(t, error, HexOrDictStep(source.data, old(source.pos) - 1))
      ensures t != null ==> fresh(t)
    {
      ghost var data := source.data;
      var outPos := source.Tell() - 1;
      var ch := source.NextChar();
      if ch == [LESS] {
        t := new Token(outPos, StartDict, [LESS, LESS]);
        return t, None;
      }
      if ch == [GREATER] {
        t := new Token(outPos, HexString, [LESS, GREATER]);
        return t, None;
      }
      var outStr := [LESS] + ch;
      while true
        invariant outPos < source.pos <= |data|
        invariant outStr == data[outPos..source.pos]
        invariant outPos + 2 <= |data| ==> outPos + 2 <= source.pos && HexEnd(data, source.pos) == HexEnd(data, outPos + 2)
        invariant outPos + 2 > |data| ==> source.pos == |data|
        decreases |data| - source.pos
      {
        ch := source.NextChar();
        if |ch| == 0 {
          break;
        }
        outStr := outStr + ch;
        if ch == [GREATER] {
          break;
        }
      }
      t := new Token(outPos, HexString, outStr);
      error := None;
    }

    /**
     * The Number branch: the run of "-+.0123456789" bytes, with the byte after it pushed back.
     * Entered with an empty `ch` when whitespace ran into the end of input.
     */
    method ScanNumber(lead: seq<Byte>) returns (t: Token?, error: Option<LexError>)
      requires |lead| <= 1 && 1 <= source.pos <= |source.data|
      requires |lead| == 1 ==> lead == [source.data[source.pos - 1]] && IsNumberChar(lead[0])
      requires |lead| == 0 ==> source.pos == |source.data|
      modifies source
      ensures Performed(t, error,
        if lead == [] then TrailingWhitespaceStep(source.data) else NumberStep(source.data, old(source.pos) - 1))
      ensures t != null ==> fresh(t)
    {
      ghost var data := source.data;
      var outStr := [];
      var outPos := source.Tell() - 1;
      var ch := lead;
      while |ch| != 0 && InNumberChars(ch)
        invariant |ch| <= 1 && outPos < source.pos <= |data|
        invariant |ch| == 1 ==> ch == [data[source.pos - 1]]
        invariant |ch| == 0 ==> source.pos == |data|
        invariant lead == [] ==> ch == [] && outStr == []
        invariant lead != [] ==> outStr == data[outPos..source.pos - |ch|]
        invariant lead == [] || RunEnd(data, source.pos - |ch|, Numeric) == RunEnd(data, outPos, Numeric)
        decreases |data| - source.pos + |ch|
      {
        SliceExtend(data, outPos, source.pos - 1);
        outStr := outStr + ch;
        ch := source.NextChar();
      }
      if |ch| != 0 {
        var _ := source.PrevChar();
      }
      t := new Token(outPos, Number, outStr);
      error := None;
    }

    /**
     * The String branch: a balanced-parenthesis scan in which a backslash takes the
     * next byte with it. The end of input before the closing ')' is an error.
     */
    method ScanString() returns (t: Token?, error: Option<LexError>)
      requires JustRead(LEFT_PAREN)
      modifies source
      ensures Performed(t, error, StringStep(source.data, old(source.pos) - 1))
      ensures t != null ==> fresh(t)
    {
      ghost var data := source.data;
      var bracketNestingLevel := 1;
      var outStr := [LEFT_PAREN];
      var outPos := source.Tell() - 1;
      var ch := [LEFT_PAREN];
      while true
        invariant outPos < source.pos <= |data|
        invariant outStr == data[outPos..source.pos]
        invariant bracketNestingLevel >= 1
        invariant StringEnd(data, source.pos, bracketNestingLevel) == StringEnd(data, outPos + 1, 1)
        decreases |data| - source.pos
      {
        ghost var i := source.pos;
        ch := source.NextChar();
        if |ch| == 0 {
          break;
        }
        if ch[0] == BACKSLASH {
          ch := source.NextChar();
          SliceExtend(data, outPos, i);
          if |ch| == 1 {
            SliceExtend(data, outPos, i + 1);
          }
          outStr := outStr + [BACKSLASH] + ch;
          continue;
        }
        if ch[0] == LEFT_PAREN {
          bracketNestingLevel := bracketNestingLevel + 1;
        }
        if ch[0] == RIGHT_PAREN {
          bracketNestingLevel := bracketNestingLevel - 1;
        }
        SliceExtend(data, outPos, i);
        outStr := outStr + ch;
        if bracketNestingLevel == 0 {
          break;
        }
      }
      if |ch| == 0 {
        return null, Some(UnterminatedString);
      }
      // The closing parenthesis was the last byte taken, so the text never ends in a backslash.
      assert !(|outStr| > 0 && outStr[|outStr| - 1] == BACKSLASH);
      t := new Token(outPos, String, outStr);
      error := None;
    }

    /** The Other branch: the bytes up to the next delimiter, which is pushed back. */
    method ScanOther(lead: seq<Byte>) returns (t: Token?, error: Option<LexError>)
      requires |lead| == 1 && JustRead(lead[0])
      modifies source
      ensures Performed(t, error, OtherStep(source.data, old(source.pos) - 1))
      ensures t != null ==> fresh(t)
    {
      ghost var data := source.data;
      var outStr := [];
      var outPos := source.Tell() - 1;
      var ch := lead;
      while |ch| != 0 && !IsDelimiter(ch[0])
        invariant |ch| <= 1 && outPos < source.pos <= |data|
        invariant |ch| == 1 ==> ch == [data[source.pos - 1]]
        invariant |ch| == 0 ==> source.pos == |data|
        invariant outStr == data[outPos..source.pos - |ch|]
        invariant RunEnd(data, source.pos - |ch|, Regular) == RunEnd(data, outPos, Regular)
        decreases |data| - source.pos + |ch|
      {
        SliceExtend(data, outPos, source.pos - 1);
        outStr := outStr + ch;
        ch := source.NextChar();
      }
      if |ch| != 0 {
        var _ := source.PrevChar();
      }
      t := new Token(outPos, Other, outStr);
      error := None;
    }

    /** Returns the first token that is not a comment, None at end of input, or the error that stopped a scan. */
    method NextNonCommentToken() returns (t: Token?, error: Option<LexError>)
      modifies source
      ensures Performed(t, error, NextNonCommentLexeme(source.data, old(source.pos)))
      ensures t != null ==> fresh(t)
    {
      ghost var q := source.pos;
      t, error := NextToken();
      while t != null && t.tokenType == Comment
        invariant Performed(t, error, NextLexeme(source.data, q))
        invariant NextNonCommentLexeme(source.data, q) == NextNonCommentLexeme(source.data, old(source.pos))
        invariant t != null ==> fresh(t)
        decreases |source.data| - q
      {
        q := source.pos;
        t, error := NextToken();
      }
    }

    /** Moves the read position (by default to an absolute offset) and returns the new one. */
    method Seek(pos: int, whence: int := SEEK_SET) returns (r: Result<nat, SeekError>)
      modifies source
      ensures r == SeekTarget(old(source.pos), |source.data|, pos, whence)
      ensures source.pos == if r.Ok? then r.value else old(source.pos)
    {
      r := source.Seek(pos, whence);
    }

    /** The current read position. */
    method Tell() returns (pos: nat)
      ensures pos == source.pos
    {
      pos := source.Tell();
    }
  }

  /**
   * A caller that notes the position, scans a token, seeks back to the noted
   * position and scans again gets the same report and ends at the same place.
   */
  method RescanAfterSeek(tokenizer: LowLevelTokenizer)
    returns (first: Token?, firstError: Option<LexError>, second: Token?, secondError: Option<LexError>)
    modifies tokenizer.source
    ensures (first == null) == (second == null) && firstError == secondError
    ensures first != null ==> first.Value() == second.Value()
    ensures tokenizer.source.pos == NextLexeme(tokenizer.source.data, old(tokenizer.source.pos)).pos
  {
    var noted := tokenizer.Tell();
    first, firstError := tokenizer.NextToken();
    var _ := tokenizer.Seek(noted);
    second, secondError := tokenizer.NextToken();
  }
}
