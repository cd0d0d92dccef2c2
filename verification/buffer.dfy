/** The manifest buffer, abstracted to one typed token per Write/Read call.
    BufferWriter appends tokens; BufferReader walks them with a cursor. */
module Buffer {
  import opened Results

  type uint8 = x: int | 0 <= x < 0x100
  type uint32 = x: int | 0 <= x < 0x1_0000_0000
  type int32 = x: int | -0x8000_0000 <= x < 0x8000_0000
  type int64 = x: int | -0x8000_0000_0000_0000 <= x < 0x8000_0000_0000_0000

  const MaxInt32: int := 0x7FFF_FFFF

  /** One field as written by a BufferWriter call. */
  datatype Token =
    | U32(u32: uint32)
    | I32(i32: int32)
    | I64(i64: int64)
    | Bool(b: bool)
    | Byte(u8: uint8)
    | Utf8(str: string)
    | Utf8Array(strs: seq<string>)
    | I32Array(ints: seq<int32>)

  // What each BufferReader call yields when the cursor is at `pos`.

  function ReadUInt32At(data: seq<Token>, pos: nat): Result<uint32> {
    if pos >= |data| then Failure(BufferUnderflow)
    else if data[pos].U32? then Success(data[pos].u32)
    else Failure(MalformedData)
  }

  function ReadInt32At(data: seq<Token>, pos: nat): Result<int32> {
    if pos >= |data| then Failure(BufferUnderflow)
    else if data[pos].I32? then Success(data[pos].i32)
    else Failure(MalformedData)
  }

  function ReadInt64At(data: seq<Token>, pos: nat): Result<int64> {
    if pos >= |data| then Failure(BufferUnderflow)
    else if data[pos].I64? then Success(data[pos].i64)
    else Failure(MalformedData)
  }

  function ReadBoolAt(data: seq<Token>, pos: nat): Result<bool> {
    if pos >= |data| then Failure(BufferUnderflow)
    else if data[pos].Bool? then Success(data[pos].b)
    else Failure(MalformedData)
  }

  function ReadByteAt(data: seq<Token>, pos: nat): Result<uint8> {
    if pos >= |data| then Failure(BufferUnderflow)
    else if data[pos].Byte? then Success(data[pos].u8)
    else Failure(MalformedData)
  }

  function ReadUTF8At(data: seq<Token>, pos: nat): Result<string> {
    if pos >= |data| then Failure(BufferUnderflow)
    else if data[pos].Utf8? then Success(data[pos].str)
    else Failure(MalformedData)
  }

  function ReadUTF8ArrayAt(data: seq<Token>, pos: nat): Result<seq<string>> {
    if pos >= |data| then Failure(BufferUnderflow)
    else if data[pos].Utf8Array? then Success(data[pos].strs)
    else Failure(MalformedData)
  }

  function ReadInt32ArrayAt(data: seq<Token>, pos: nat): Result<seq<int32>> {
    if pos >= |data| then Failure(BufferUnderflow)
    else if data[pos].I32Array? then Success(data[pos].ints)
    else Failure(MalformedData)
  }

  /** Appends fields to an in-memory buffer. */
  class BufferWriter {
    var tokens: seq<Token>

    constructor ()
      ensures tokens == []
    {
      tokens := [];
    }

    method WriteUInt32(v: uint32)
      modifies this
      ensures tokens == old(tokens) + [U32(v)]
    {
      tokens := tokens + [U32(v)];
    }

    method WriteInt32(v: int32)
      modifies this
      ensures tokens == old(tokens) + [I32(v)]
    {
      tokens := tokens + [I32(v)];
    }

    method WriteInt64(v: int64)
      modifies this
      ensures tokens == old(tokens) + [I64(v)]
    {
      tokens := tokens + [I64(v)];
    }

    method WriteBool(v: bool)
      modifies this
      ensures tokens == old(tokens) + [Bool(v)]
    {
      tokens := tokens + [Bool(v)];
    }

    method WriteByte(v: uint8)
      modifies this
      ensures tokens == old(tokens) + [Byte(v)]
    {
      tokens := tokens + [Byte(v)];
    }

    method WriteUTF8(v: string)
      modifies this
      ensures tokens == old(tokens) + [Utf8(v)]
    {
      tokens := tokens + [Utf8(v)];
    }

    method WriteUTF8Array(v: seq<string>)
      modifies this
      ensures tokens == old(tokens) + [Utf8Array(v)]
    {
      tokens := tokens + [Utf8Array(v)];
    }

    method WriteInt32Array(v: seq<int32>)
      modifies this
      ensures tokens == old(tokens) + [I32Array(v)]
    {
      tokens := tokens + [I32Array(v)];
    }
  }

  /** Reads fields from an immutable buffer; each successful read moves the cursor one field on. */
  class BufferReader {
    const data: seq<Token>
    var index: nat

    constructor (data: seq<Token>)
      ensures this.data == data && index == 0
    {
      this.data := data;
      index := 0;
    }

    method ReadUInt32() returns (r: Result<uint32>)
      modifies this
      ensures r == ReadUInt32At(data, old(index))
      ensures index == if r.Success? then old(index) + 1 else old(index)
    {
      r := ReadUInt32At(data, index);
      if r.Success? { index := index + 1; }
    }

    method ReadInt32() returns (r: Result<int32>)
      modifies this
      ensures r == ReadInt32At(data, old(index))
      ensures index == if r.Success? then old(index) + 1 else old(index)
    {
      r := ReadInt32At(data, index);
      if r.Success? { index := index + 1; }
    }

    method ReadInt64() returns (r: Result<int64>)
      modifies this
      ensures r == ReadInt64At(data, old(index))
      ensures index == if r.Success? then old(index) + 1 else old(index)
    {
      r := ReadInt64At(data, index);
      if r.Success? { index := index + 1; }
    }

    method ReadBool() returns (r: Result<bool>)
      modifies this
      ensures r == ReadBoolAt(data, old(index))
      ensures index == if r.Success? then old(index) + 1 else old(index)
    {
      r := ReadBoolAt(data, index);
      if r.Success? { index := index + 1; }
    }

    method ReadByte() returns (r: Result<uint8>)
      modifies this
      ensures r == ReadByteAt(data, old(index))
      ensures index == if r.Success? then old(index) + 1 else old(index)
    {
      r := ReadByteAt(data, index);
      if r.Success? { index := index + 1; }
    }

    method ReadUTF8() returns (r: Result<string>)
      modifies this
      ensures r == ReadUTF8At(data, old(index))
      ensures index == if r.Success? then old(index) + 1 else old(index)
    {
      r := ReadUTF8At(data, index);
      if r.Success? { index := index + 1; }
    }

    method ReadUTF8Array() returns (r: Result<seq<string>>)
      modifies this
      ensures r == ReadUTF8ArrayAt(data, old(index))
      ensures index == if r.Success? then old(index) + 1 else old(index)
    {
      r := ReadUTF8ArrayAt(data, index);
      if r.Success? { index := index + 1; }
    }

    method ReadInt32Array() returns (r: Result<seq<int32>>)
      modifies this
      ensures r == ReadInt32ArrayAt(data, old(index))
      ensures index == if r.Success? then old(index) + 1 else old(index)
    {
      r := ReadInt32ArrayAt(data, index);
      if r.Success? { index := index + 1; }
    }
  }
}
