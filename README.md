# borb low-level PDF tokenizer, in Dafny

This project models the first lexing pass of borb's PDF reader. The Python
module `ptext/io/read/tokenize/low_level_tokenizer.py` holds `TokenType`, the
`Token` record and `LowLevelTokenizer`. The tokenizer reads one byte at a time
from a seekable stream. It classifies each lexeme by its lead byte and returns
a token holding the byte offset, the kind and the text. At end of input it
returns nothing. The lexeme kinds are:

- array brackets;
- names;
- `>>`;
- comments;
- `<<`, hex strings and `<>`;
- numbers;
- balanced literal strings with backslash escapes;
- "other" runs.

Files and modules:

- `wrappers.dfy` (`Wrappers`): `Option` and `Result`.
- `byte_source.dfy` (`Cursor`): the stream. The class `ByteSource` holds the
  bytes (`data`, each 0..255, one Latin-1 character each) and a position
  `pos`. Its methods are `NextChar` (a read of one byte, empty at end of
  input), `PrevChar` (`seek(-1, SEEK_CUR)`), `Seek` and `Tell`. The position
  arithmetic of `seek` is the pure function `SeekTarget`.
- `token.dfy` (`Tokens`): `TokenType` with its integer values, the value
  `Lexeme` (offset, kind, text), and the class `Token` with the three fluent
  setters.
- `lexer_spec.dfy` (`Lexer`): the pure description of one `next_token` call.
  It holds the byte classes (`IsWhitespace`, `IsDelimiter`, the number bytes),
  the run scanners `RunEnd`, `HexEnd` and `StringEnd`, and one step function
  per branch. `NextLexeme(data, pos)` is the outcome of a call together with
  the position the call leaves behind. `NextNonCommentLexeme` is the same for
  `next_non_comment_token`.
- `tokenizer.dfy` (`Tokenizer`): the class `LowLevelTokenizer`. `NextToken`
  runs the same `while` loops as the Python code over a `ByteSource`, and is
  proved to produce exactly `NextLexeme(data, old pos)`: it returns the same
  token (or none, or the same error) and leaves the same position. Each branch
  of `next_token` is a helper method proved against its step function.
  `NextNonCommentToken` is proved against `NextNonCommentLexeme` in the same
  way.
- `lexer_properties.dfy` (`LexerProperties`): lemmas about `NextLexeme` and
  `NextNonCommentLexeme`. They state what each kind of token looks like, where
  its bytes come from, how end of input behaves, and the scanner's quirks.

A call's result is a token, nothing, or an error. The two `assert` statements
that can fail in `next_token` become errors in the model:

- a `>` not followed by `>` (line 133) gives `UnexpectedAfterGreater`;
- a literal string cut off by the end of input (line 203) gives
  `UnterminatedString`.

In both cases the stream position is where the Python code stood when the
assert fired. The assert at line 204 can never fail: a string that reaches it
always ends with the `)` that closed it. The model therefore keeps it as a
proof obligation (an `assert` in `ScanString`) rather than as an error.

Behaviours of the code that the model keeps on purpose:

- **Trailing whitespace.** Whitespace that runs into the end of input does not
  give "nothing". The read at end of input is the empty string, and Python's
  `"" in "-+.0123456789"` is true. So the NUMBER branch returns an empty Number
  token at offset `len - 1` and leaves the position at the end
  (`TrailingWhitespaceGivesEmptyNumber`). The docstring of `next_token`
  (lines 94-96) promises None when no token exists, but the code returns this
  token instead; the model follows the code.
- **Lone `)`.** A lead `)` is a delimiter with no branch of its own. It falls
  into OTHER, which returns empty text and pushes the `)` back, so the position
  does not move and every later call returns the same token
  (`LoneRightParenStalls`).

## Model

| member | source | states |
|---|---|---|
| Cursor.SeekTarget | ptext/io/read/tokenize/low_level_tokenizer.py:217-226 | A seek succeeds exactly when whence is SEEK_SET, SEEK_CUR or SEEK_END and the target is not negative. The target is then offset, position+offset or size+offset respectively. |
| Cursor.ByteSource.NextChar | ptext/io/read/tokenize/low_level_tokenizer.py:242-243 | Before the end it returns the one byte at the position and advances by one. At the end it returns the empty read and does not move. |
| Cursor.ByteSource.PrevChar | ptext/io/read/tokenize/low_level_tokenizer.py:245-246 | After at least one byte has been read, it moves the position back by exactly one. |
| Cursor.ByteSource.Seek | ptext/io/read/tokenize/low_level_tokenizer.py:217-226 | It returns SeekTarget of the old position. The position becomes the target on success and is unchanged on error. |
| Cursor.SeekToToldPosition | ptext/io/read/tokenize/low_level_tokenizer.py:217-232 | Seeking with SEEK_SET to any position that tell reported lands exactly there. |
| Cursor.StepBackUndoesRead | ptext/io/read/tokenize/low_level_tokenizer.py:242-246 | A step back after a successful read returns to the position before the read. |
| Tokens.Ordinal | ptext/io/read/tokenize/low_level_tokenizer.py:14-32 | Each token kind has an integer value from 1 to 14. |
| Tokens.OrdinalInjective | ptext/io/read/tokenize/low_level_tokenizer.py:14-32 | Distinct token kinds have distinct integer values. |
| Tokens.Token.constructor | ptext/io/read/tokenize/low_level_tokenizer.py:43-46 | A new token holds exactly the given offset, kind and text. |
| Tokens.Token.SetByteOffset | ptext/io/read/tokenize/low_level_tokenizer.py:48-53 | It returns the same object, with the offset replaced and kind and text unchanged. |
| Tokens.Token.SetText | ptext/io/read/tokenize/low_level_tokenizer.py:55-60 | It returns the same object, with the text replaced and offset and kind unchanged. |
| Tokens.Token.SetTokenType | ptext/io/read/tokenize/low_level_tokenizer.py:62-67 | It returns the same object, with the kind replaced and offset and text unchanged. |
| Lexer.IsWhitespace | ptext/io/read/tokenize/low_level_tokenizer.py:239-240 | Defines the whitespace bytes 0, 9, 10, 12, 13 and 32; it has no contract of its own, and `WhitespaceIsDelimiter` relates it to the delimiters. |
| Lexer.Contains | ptext/io/read/tokenize/low_level_tokenizer.py:173 | Defines Python's substring test `part in s`; it has no contract of its own, and `ContainsShort` characterizes it for one-byte reads. |
| Lexer.InNumberChars | ptext/io/read/tokenize/low_level_tokenizer.py:173-176 | Defines the number test on a read of at most one byte; it has no contract of its own, and `NumberTestIsSubstringTest` proves it equal to `ch in "-+.0123456789"`. |
| Lexer.IsDelimiter | ptext/io/read/tokenize/low_level_tokenizer.py:234-236 | A byte is a delimiter exactly when it is whitespace or one of `%`, `(`, `)`, `/`, `<`, `>`, `[`, `]`. |
| Lexer.WhitespaceIsDelimiter | ptext/io/read/tokenize/low_level_tokenizer.py:234-240 | Every whitespace byte is also a delimiter. |
| Lexer.ContainsShort | ptext/io/read/tokenize/low_level_tokenizer.py:173 | For a read of at most one byte, Python's substring test `ch in s` holds exactly when the read is empty or its byte occurs in `s`. |
| Lexer.NumberTestIsSubstringTest | ptext/io/read/tokenize/low_level_tokenizer.py:173-176 | The model's number test equals Python's substring test against "-+.0123456789", including the empty read. |
| Lexer.RunEnd | ptext/io/read/tokenize/low_level_tokenizer.py:102-103 | It gives the end of the longest run of one byte class from a position: every byte before it is in the class, and the byte at it, if any, is not. |
| Lexer.HexEnd | ptext/io/read/tokenize/low_level_tokenizer.py:162-168 | It gives the end of a hex body: just past the first `>`, or the end of input when there is none. |
| Lexer.StringEnd | ptext/io/read/tokenize/low_level_tokenizer.py:188-202 | A closing position, when there is one, lies after the start and within the input. |
| Lexer.NameStep | ptext/io/read/tokenize/low_level_tokenizer.py:113-126 | Defines the NAME branch: `/` and the run of non-delimiters after it. It has no contract of its own; `ScanName` is proved to perform it and `NameLexeme` states its shape. |
| Lexer.EndDictStep | ptext/io/read/tokenize/low_level_tokenizer.py:128-134 | Defines the END_DICT branch: `>>`, or the failure of the assert at line 133, leaving the position after the second read. It has no contract of its own; `ScanEndDict` is proved to perform it and `GreaterLexeme` states its shape. |
| Lexer.CommentStep | ptext/io/read/tokenize/low_level_tokenizer.py:136-145 | Defines the COMMENT branch: the run up to a carriage return or line feed. It has no contract of its own; `ScanComment` is proved to perform it and `CommentLexeme` states its shape. |
| Lexer.HexOrDictStep | ptext/io/read/tokenize/low_level_tokenizer.py:147-170 | Defines the `<` branch: `<<`, `<>`, or hex text up to the first `>`, partial at the end of input. It has no contract of its own; `ScanHexStringOrDict` is proved to perform it and `LessLexeme` states its shape. |
| Lexer.NumberStep | ptext/io/read/tokenize/low_level_tokenizer.py:172-181 | Defines the NUMBER branch for a real lead byte: the run of number bytes. It has no contract of its own; `ScanNumber` is proved to perform it and `NumberLexeme` states its shape. |
| Lexer.StringStep | ptext/io/read/tokenize/low_level_tokenizer.py:183-205 | Defines the STRING branch: the text up to the position `StringEnd` gives, or the failure of the assert at line 203 at the end of input. It has no contract of its own; `ScanString` is proved to perform it and `StringLexeme` states its shape. |
| Lexer.OtherStep | ptext/io/read/tokenize/low_level_tokenizer.py:207-215 | Defines the OTHER branch: the run of non-delimiters from the lead byte. It has no contract of its own; `ScanOther` is proved to perform it and `OtherLexeme` states its shape. |
| Lexer.TrailingWhitespaceStep | ptext/io/read/tokenize/low_level_tokenizer.py:173-181 | Defines what the NUMBER branch does with the empty read after trailing whitespace: an empty Number at the last byte's offset, at the end of input. It has no contract of its own; `ScanNumber` is proved to perform it and `TrailingWhitespaceGivesEmptyNumber` states when it happens. |
| Lexer.LexemeAt | ptext/io/read/tokenize/low_level_tokenizer.py:105-215 | A lexeme scanned from a non-whitespace lead byte starts at that byte. Its text is exactly the input bytes up to the position the scan leaves. |
| Lexer.NextLexeme | ptext/io/read/tokenize/low_level_tokenizer.py:93-215 | A call reports end of input exactly when the position is at the end, and then does not move. It never moves past the end. A comment always advances the position. |
| Lexer.NextNonCommentLexeme | ptext/io/read/tokenize/low_level_tokenizer.py:83-91 | The outcome is never a comment. |
| Tokenizer.LowLevelTokenizer.constructor | ptext/io/read/tokenize/low_level_tokenizer.py:80-81 | The tokenizer reads from the given stream. |
| Tokenizer.LowLevelTokenizer.NextToken | ptext/io/read/tokenize/low_level_tokenizer.py:93-215 | It returns a fresh token with the offset, kind and text of NextLexeme from the old position, or nothing at end of input, or its error. The new stream position is the one NextLexeme gives. |
| Tokenizer.LowLevelTokenizer.SkipWhitespace | ptext/io/read/tokenize/low_level_tokenizer.py:98-103 | The whitespace loop stops at the first byte that is not whitespace. It holds that byte with the position just past it, or holds the empty read at the end of input. |
| Tokenizer.LowLevelTokenizer.ScanLexeme | ptext/io/read/tokenize/low_level_tokenizer.py:105-215 | The dispatch on the lead byte performs LexemeAt of that byte, or the trailing-whitespace step when the read was empty. |
| Tokenizer.LowLevelTokenizer.ScanName | ptext/io/read/tokenize/low_level_tokenizer.py:113-126 | The NAME loop performs NameStep: the name up to the next delimiter, which is pushed back. |
| Tokenizer.LowLevelTokenizer.ScanEndDict | ptext/io/read/tokenize/low_level_tokenizer.py:128-134 | The END_DICT branch performs EndDictStep: `>>`, or the failure when the second byte is not `>`. |
| Tokenizer.LowLevelTokenizer.ScanComment | ptext/io/read/tokenize/low_level_tokenizer.py:136-145 | The COMMENT loop performs CommentStep: the text up to a carriage return or line feed, which is pushed back. |
| Tokenizer.LowLevelTokenizer.ScanHexStringOrDict | ptext/io/read/tokenize/low_level_tokenizer.py:147-170 | The `<` branch performs HexOrDictStep: `<<`, `<>`, or a hex string up to and including the first `>`. |
| Tokenizer.LowLevelTokenizer.ScanNumber | ptext/io/read/tokenize/low_level_tokenizer.py:172-181 | The NUMBER loop performs NumberStep for a real lead byte, and the empty trailing-whitespace token for the empty read. |
| Tokenizer.LowLevelTokenizer.ScanString | ptext/io/read/tokenize/low_level_tokenizer.py:183-205 | The STRING loop with its nesting counter performs StringStep: the text up to the closing `)` given by StringEnd, or the unterminated failure at the end of input. |
| Tokenizer.LowLevelTokenizer.ScanOther | ptext/io/read/tokenize/low_level_tokenizer.py:207-215 | The OTHER loop performs OtherStep: the run of non-delimiters, with the delimiter after it pushed back. |
| Tokenizer.LowLevelTokenizer.NextNonCommentToken | ptext/io/read/tokenize/low_level_tokenizer.py:83-91 | Repeated calls until the result is not a comment perform NextNonCommentLexeme from the old position. |
| Tokenizer.LowLevelTokenizer.Seek | ptext/io/read/tokenize/low_level_tokenizer.py:217-226 | It passes through to the stream: SeekTarget's result, and the position moves only on success. |
| Tokenizer.LowLevelTokenizer.Tell | ptext/io/read/tokenize/low_level_tokenizer.py:228-232 | It returns the stream position and changes nothing. |
| Tokenizer.RescanAfterSeek | ptext/io/read/tokenize/low_level_tokenizer.py:93-232 | Noting tell, scanning, seeking back and scanning again gives the same token or error, and ends at the same position. |
| LexerProperties.Lead | ptext/io/read/tokenize/low_level_tokenizer.py:102-103 | The lead byte of a call is the first byte that is not whitespace; every byte skipped before it is whitespace. |
| LexerProperties.EndOfInputIsSticky | ptext/io/read/tokenize/low_level_tokenizer.py:98-100 | A call returns nothing exactly at end of input. It then leaves the position unchanged, so the next call returns nothing again. |
| LexerProperties.TokenSpansSource | ptext/io/read/tokenize/low_level_tokenizer.py:93-215 | A token's offset is its lead byte, its text is exactly the input slice from the offset, and tell afterwards equals offset plus text length. |
| LexerProperties.TrailingWhitespaceGivesEmptyNumber | ptext/io/read/tokenize/low_level_tokenizer.py:102-103 | Only whitespace to the end of input gives an empty Number token at the last byte's offset, and nothing else does. |
| LexerProperties.RescanFromOffset | ptext/io/read/tokenize/low_level_tokenizer.py:93-232 | Seeking to a produced token's own offset and scanning again gives the identical token and end position. This includes the empty trailing-whitespace token at the last byte. |
| LexerProperties.ArrayBracketLexeme | ptext/io/read/tokenize/low_level_tokenizer.py:105-111 | A lead `[` or `]` gives a one-byte StartArray or EndArray token at its offset, and the position moves just past it. |
| LexerProperties.OtherLead | ptext/io/read/tokenize/low_level_tokenizer.py:207-215 | A call yields an Other token exactly when the lead byte is not a bracket, `/`, `>`, `%`, `<`, `(` or a number byte. |
| LexerProperties.NameLexeme | ptext/io/read/tokenize/low_level_tokenizer.py:113-126 | A name starts with `/` and contains no later delimiter. It is maximal: the next byte is a delimiter or the end of input. |
| LexerProperties.OtherLexeme | ptext/io/read/tokenize/low_level_tokenizer.py:207-215 | An Other token contains no delimiter and is maximal. Its text is empty exactly when the lead byte is `)`. |
| LexerProperties.LoneRightParenStalls | ptext/io/read/tokenize/low_level_tokenizer.py:207-215 | A lead `)` gives an empty Other token at its offset. The position stays on the `)`, so the next call gives the same result. |
| LexerProperties.NumberLexeme | ptext/io/read/tokenize/low_level_tokenizer.py:172-181 | A number is a non-empty run of bytes from "-+.0123456789" starting at the lead byte. It is maximal. |
| LexerProperties.MalformedNumberKept | ptext/io/read/tokenize/low_level_tokenizer.py:172-181 | The input "1.2.3" is one Number token with that exact text, so there is no numeric validation. |
| LexerProperties.CommentLexeme | ptext/io/read/tokenize/low_level_tokenizer.py:136-145 | A comment starts with `%` and contains no carriage return or line feed. The position stops before the terminator, which is left unread. |
| LexerProperties.GreaterLexeme | ptext/io/read/tokenize/low_level_tokenizer.py:128-134 | `>>` gives EndDict and advances by two. A `>` followed by anything else, or by the end of input, is the failure. |
| LexerProperties.LessLexeme | ptext/io/read/tokenize/low_level_tokenizer.py:147-170 | `<<` gives StartDict. Otherwise the result is a hex string from `<` up to and including the first `>`, or a partial one that runs to the end of input with no failure. |
| LexerProperties.EmptyHexString | ptext/io/read/tokenize/low_level_tokenizer.py:156-158 | `<>` gives a HexString with text `<>` and advances by two. |
| LexerProperties.ReservedKindsNeverProduced | ptext/io/read/tokenize/low_level_tokenizer.py:28-32 | No call produces a REF, OBJ, END_OBJ or END_OF_FILE token. |
| LexerProperties.StringEndIsFirstZero | ptext/io/read/tokenize/low_level_tokenizer.py:188-202 | The string scan stops at the first position where the nesting depth of unescaped parentheses reaches 0. If the input ends first, the depth stays at least 1 throughout. |
| LexerProperties.StringLexeme | ptext/io/read/tokenize/low_level_tokenizer.py:183-205 | A string runs from `(` to the unescaped `)` that brings the depth from 1 to 0. Its depth stays at least 1 before that, and escape pairs do not change the depth. If the input ends first, the result is the unterminated failure with the position at the end. |
| LexerProperties.NonCommentIsFirstNonComment | ptext/io/read/tokenize/low_level_tokenizer.py:83-91 | Repeated calls from the position give some number of comments and then a first non-comment result. The non-comment call reports exactly that result. |

## Left out

- The Python `io` stream is replaced by an in-memory byte sequence with a position. For a negative target or an unknown whence, `Seek` reports an error and leaves the position alone. File streams raise for negative targets; `BytesIO` instead clamps a negative relative seek at 0. The kind of stream is not visible in the source, and nothing in the tokenizer seeks below 0.
- The Latin-1 decode (line 243) is left out; each byte is one character.
- Running Python with `-O` strips the `assert` statements, which would turn the two error paths into tokens. The model follows the asserts.
- The `-1` in the delimiter list (line 236) can never match the ordinal of a read character, so the model's delimiter set leaves it out.
- REF, OBJ and END_OBJ are kept only as values of `TokenType`; nothing produces them.
- Tokenizer.LowLevelTokenizer.NextToken: `next_token` is one Python method. The model splits its branches into helper methods; the order of reads, pushes back and checks is unchanged.
- Lexer.StringEnd: its own contract states only bounds. The full meaning of the closing position is stated by `LexerProperties.StringEndIsFirstZero`.
- No property is stated about a whole stream of tokens, such as the concatenation of all token texts and the skipped whitespace giving back the input. Each lemma is about one call, or about the comment-skipping loop.
- The two test files of the repository are layout and file-I/O integration tests of code outside this module.
