/**
 * The seekable byte source the tokenizer reads from: an in-memory byte sequence
 * and a read position. Reading at or past the end yields nothing and leaves the
 * position where it is; the position may be moved past the end by a seek.
 */
module Cursor {
  import opened Wrappers

  /** A byte, as decoded one-to-one into a Latin-1 character. */
  type Byte = b: int | 0 <= b < 256

  /** The three origins a seek may be relative to (the io module's whence values). */
  const SEEK_SET: int := 0
  const SEEK_CUR: int := 1
  const SEEK_END: int := 2

  datatype SeekError = InvalidWhence(whence: int) | NegativePosition(target: int)

  /** Where a seek by `offset` relative to `whence` lands, from position `pos` in a source of `size` bytes. */
  function SeekTarget(pos: nat, size: nat, offset: int, whence: int): (r: Result<nat, SeekError>)
    ensures r.Ok? <==> (whence in {SEEK_SET, SEEK_CUR, SEEK_END} &&
                        0 <= offset + (if whence == SEEK_SET then 0 else if whence == SEEK_CUR then pos else size))
    ensures r.Ok? && whence == SEEK_SET ==> r.value == offset
    ensures r.Ok? && whence == SEEK_CUR ==> r.value == pos + offset
    ensures r.Ok? && whence == SEEK_END ==> r.value == size + offset
  {
    var base := if whence == SEEK_SET then 0 else if whence == SEEK_CUR then pos else size;
    if whence !in {SEEK_SET, SEEK_CUR, SEEK_END} then Err(InvalidWhence(whence))
    else if base + offset < 0 then Err(NegativePosition(base + offset))
    else Ok(base + offset)
  }

  class ByteSource {
    const data: seq<Byte>
    var pos: nat

    constructor (data: seq<Byte>)
      ensures this.data == data && pos == 0
    {
      this.data := data;
      pos := 0;
    }

    /** Reads one byte: `[b]` and one position on, or `[]` and no move at end of input. */
    method NextChar() returns (ch: seq<Byte>)
      modifies this
      ensures old(pos) < |data| ==> ch == [data[old(pos)]] && pos == old(pos) + 1
      ensures old(pos) >= |data| ==> ch == [] && pos == old(pos)
    {
      if pos < |data| {
        ch := [data[pos]];
        pos := pos + 1;
      } else {
        ch := [];
      }
    }

    /** Steps back over the byte just read: a relative seek by -1. */
    method PrevChar() returns (newPos: nat)
      requires pos >= 1
      modifies this
      ensures pos == old(pos) - 1 && newPos == pos
    {
      var r := Seek(-1, SEEK_CUR);
      newPos := r.value;
    }

    /** Moves the position; a failed seek leaves it unchanged. Returns the new absolute position. */
    method Seek(offset: int, whence: int) returns (r: Result<nat, SeekError>)
      modifies this
      ensures r == SeekTarget(old(pos), |data|, offset, whence)
      ensures pos == if r.Ok? then r.value else old(pos)
    {
      r := SeekTarget(pos, |data|, offset, whence);
      if r.Ok? {
        pos := r.value;
      }
    }

    /** The current position. */
    function Tell(): nat
      reads this
    {
      pos
    }
  }

  /** Seeking to an absolute position that `Tell` reported returns to it exactly. */
  lemma SeekToToldPosition(pos: nat, size: nat, told: nat)
    ensures SeekTarget(pos, size, told, SEEK_SET) == Ok(told)
  {
  }

  /** A relative seek by -1 undoes a one-byte read, and never fails after one. */
  lemma StepBackUndoesRead(pos: nat, size: nat)
    requires pos < size
    ensures SeekTarget(pos + 1, size, -1, SEEK_CUR) == Ok(pos)
  {
  }
}
