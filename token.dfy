/** Token kinds, the value of a scanned lexeme, and the mutable Token record the tokenizer hands out. */
module Tokens {
  import opened Cursor

  /** The token kinds. Ref, Obj and EndObj are part of the enumeration but never produced by the lexer. */
  datatype TokenType =
    | Number | String | HexString | Name | Comment
    | StartArray | EndArray | StartDict | EndDict
    | Ref | Obj | EndObj
    | Other | EndOfFile

  /** The integer value each kind carries in the enumeration. */
  function Ordinal(t: TokenType): (n: int)
    ensures 1 <= n <= 14
  {
    match t
    case Number => 1
    case String => 2
    case HexString => 3
    case Name => 4
    case Comment => 5
    case StartArray => 6
    case EndArray => 7
    case StartDict => 8
    case EndDict => 9
    case Ref => 10
    case Obj => 11
    case EndObj => 12
    case Other => 13
    case EndOfFile => 14
  }

  /** Distinct kinds carry distinct integer values. */
  lemma OrdinalInjective(t: TokenType, u: TokenType)
    ensures Ordinal(t) == Ordinal(u) ==> t == u
  {
  }

  /** What a token says: where its lexeme starts, its kind and its raw bytes. */
  datatype Lexeme = Lexeme(byteOffset: nat, kind: TokenType, text: seq<Byte>)

  class Token {
    var byteOffset: nat
    var tokenType: TokenType
    var text: seq<Byte>

    constructor (byteOffset: nat, tokenType: TokenType, text: seq<Byte>)
      ensures Value() == Lexeme(byteOffset, tokenType, text)
    {
      this.byteOffset := byteOffset;
      this.tokenType := tokenType;
      this.text := text;
    }

    /** The token's current fields as a value. */
    function Value(): Lexeme
      reads this
    {
      Lexeme(byteOffset, tokenType, text)
    }

    /** Overwrites the offset, keeps the other fields, and returns the same token. */
    method SetByteOffset(byteOffset: nat) returns (self: Token)
      modifies this
      ensures self == this
      ensures Value() == old(Value()).(byteOffset := byteOffset)
    {
      this.byteOffset := byteOffset;
      self := this;
    }

    /** Overwrites the text, keeps the other fields, and returns the same token. */
    method SetText(text: seq<Byte>) returns (self: Token)
      modifies this
      ensures self == this
      ensures Value() == old(Value()).(text := text)
    {
      this.text := text;
      self := this;
    }

    /** Overwrites the kind, keeps the other fields, and returns the same token. */
    method SetTokenType(tokenType: TokenType) returns (self: Token)
      modifies this
      ensures self == this
      ensures Value() == old(Value()).(kind := tokenType)
    {
      this.tokenType := tokenType;
      self := this;
    }
  }
}
