/** The chunked BLOB reader (`GetBlobValue`): on a reader opened for
    sequential access it learns the length of a large-object column, allocates
    an array of that length, and fills it with 100-byte reads at increasing
    offsets until a read comes back short. `GetStringFromBlob` decodes the
    result as ASCII. */
module BlobReader {
  import opened Values

  /** The size of every read, `bufferSize`. */
  const BufferSize: nat := 100

  /** `System.Data.CommandBehavior`, a set of flags. */
  newtype CommandBehavior = x: int | 0 <= x < 64

  const SequentialAccess: CommandBehavior := 16

  /** One column of the current row of a result cursor, with its full content. */
  datatype Field = Field(name: string, content: seq<byte>)

  /** A call of the cursor's `GetBytes`: the length probe (null buffer) or a
      read into the result array at a field offset. */
  datatype ReaderCall = LengthProbe | ChunkRead(offset: nat)

  const SequentialAccessRequired: Exception :=
    Raise(ApplicationError, "Please set the DataReaderBehavior to SequentialAccess to call this method.", None)

  /** What the cursor's `GetOrdinal` throws for an unknown column: an
      IndexOutOfRangeException whose message is the column name. */
  function MissingColumn(name: string): Exception
  {
    Exception(IndexOutOfRange, name, "System.Data.OleDb", None)
  }

  function Min(a: int, b: int): int
  {
    if a <= b then a else b
  }

  /** The ordinal of the first column of the row with the given name. */
  function GetOrdinal(row: seq<Field>, name: string): (r: Option<nat>)
    ensures r.Some? ==> r.value < |row| && row[r.value].name == name
    ensures r.Some? ==> forall j :: 0 <= j < r.value ==> row[j].name != name
    ensures r.None? ==> forall j :: 0 <= j < |row| ==> row[j].name != name
  {
    if row == [] then None
    else if row[0].name == name then Some(0)
    else match GetOrdinal(row[1..], name)
      case None => None
      case Some(k) => Some(k + 1)
  }

  /** What the OleDb cursor's `GetBytes` throws for a destination index
      outside the buffer: an ArgumentOutOfRangeException naming the parameter. */
  function DestinationIndexRejected(bufferLength: nat, bufferIndex: nat): Exception
  {
    Exception(ArgumentOutOfRange, "Invalid destination buffer (size of " + NatToString(bufferLength)
      + ") offset: " + NatToString(bufferIndex), "System.Data.OleDb", None)
  }

  /** Decimal digits of a natural number. */
  function NatToString(n: nat): (r: string)
    ensures |r| >= 1
    ensures forall i :: 0 <= i < |r| ==> '0' <= r[i] <= '9'
  {
    var digit := ['0' + (n % 10) as char];
    if n < 10 then digit else NatToString(n / 10) + digit
  }

  /** The OleDb cursor's `GetBytes` into a buffer. A destination index at or
      past the end of the buffer is rejected, even when nothing is left to
      copy; otherwise it copies the bytes from `dataIndex` on, at most
      `length` of them, to the buffer at `bufferIndex`, and returns how many
      it copied. */
  method GetBytes(content: seq<byte>, dataIndex: nat, buffer: array<byte>, bufferIndex: nat, length: nat)
    returns (r: Result<nat, Exception>)
    requires dataIndex <= |content|
    requires bufferIndex + Min(length, |content| - dataIndex) <= buffer.Length
    modifies buffer
    ensures r.Failure? <==> bufferIndex >= buffer.Length
    ensures r.Failure? ==> r.error == DestinationIndexRejected(buffer.Length, bufferIndex) && buffer[..] == old(buffer[..])
    ensures r.Success? ==> var n := r.value;
      && n == Min(length, |content| - dataIndex)
      && buffer[..bufferIndex] == old(buffer[..bufferIndex])
      && buffer[bufferIndex..bufferIndex + n] == content[dataIndex..dataIndex + n]
      && buffer[bufferIndex + n..] == old(buffer[bufferIndex + n..])
  {
    if bufferIndex >= buffer.Length {
      return Failure(DestinationIndexRejected(buffer.Length, bufferIndex));
    }
    var n := Min(length, |content| - dataIndex);
    forall k | 0 <= k < n {
      buffer[bufferIndex + k] := content[dataIndex + k];
    }
    r := Success(n);
  }

  /** The first `k` data reads: at offsets 0, 100, 200, ... */
  function ChunkReadsUpTo(k: nat): seq<ReaderCall>
  {
    seq(k, i requires 0 <= i < k => ChunkRead(i * BufferSize))
  }

  /** The data reads issued for a field of `n` bytes: every full read is
      followed by another, so there are n / 100 + 1 of them. */
  function ChunkReads(n: nat): seq<ReaderCall>
  {
    ChunkReadsUpTo(n / BufferSize + 1)
  }

  /** Reads a large-object column. Fails, before any `GetBytes` call, when
      the column is unknown or the reader was not opened with exactly
      SequentialAccess. Otherwise it probes the column's length once and reads
      it in 100-byte chunks from offset 0, n / 100 + 1 reads for n bytes. The
      last of them starts at the end of the array when n is a multiple of 100
      (0 included), and the cursor rejects it; for every other length the
      result is the column's full content. */
  method GetBlobValue(row: seq<Field>, columnName: string, behavior: CommandBehavior)
    returns (r: Result<seq<byte>, Exception>, calls: seq<ReaderCall>)
    ensures GetOrdinal(row, columnName).None? ==> r == Failure(MissingColumn(columnName)) && calls == []
    ensures GetOrdinal(row, columnName).Some? && behavior != SequentialAccess ==>
      r == Failure(SequentialAccessRequired) && calls == []
    ensures GetOrdinal(row, columnName).Some? && behavior == SequentialAccess ==>
      var content := row[GetOrdinal(row, columnName).value].content;
      var n := |content|;
      && calls == [LengthProbe] + ChunkReads(n)
      && r == (if n % BufferSize == 0 then Failure(DestinationIndexRejected(n, n)) else Success(content))
  {
    var position := GetOrdinal(row, columnName);
    if position.None? {
      return Failure(MissingColumn(columnName)), [];
    }
    if behavior != SequentialAccess {
      return Failure(SequentialAccessRequired), [];
    }
    var content := row[position.value].content;
    var startIndex: nat := 0;
    // GetBytes with a null buffer reports the field's total length
    var totalBytes := |content|;
    calls := [LengthProbe];
    var outBytes := new byte[totalBytes];
    var reply := GetBytes(content, startIndex, outBytes, 0, BufferSize);
    calls := calls + [ChunkRead(startIndex)];
    if reply.Failure? {
      return Failure(reply.error), calls;
    }
    var retval := reply.value;
    while retval == BufferSize
      invariant startIndex % BufferSize == 0
      invariant outBytes.Length == |content| && startIndex < |content| && startIndex + retval <= |content|
      invariant retval == Min(BufferSize, |content| - startIndex)
      invariant outBytes[..startIndex + retval] == content[..startIndex + retval]
      invariant calls == [LengthProbe] + ChunkReadsUpTo(startIndex / BufferSize + 1)
      decreases |content| - startIndex
    {
      ghost var filled := outBytes[..startIndex + retval];
      startIndex := startIndex + BufferSize;
      assert ChunkReadsUpTo(startIndex / BufferSize + 1)
          == ChunkReadsUpTo(startIndex / BufferSize) + [ChunkRead(startIndex)];
      reply := GetBytes(content, startIndex, outBytes, startIndex, BufferSize);
      calls := calls + [ChunkRead(startIndex)];
      if reply.Failure? {
        assert startIndex == |content|;
        return Failure(reply.error), calls;
      }
      retval := reply.value;
      assert outBytes[..startIndex] == filled;
      assert outBytes[..startIndex + retval] == outBytes[..startIndex] + outBytes[startIndex..startIndex + retval];
      assert content[..startIndex + retval] == content[..startIndex] + content[startIndex..startIndex + retval];
    }
    assert outBytes[..] == outBytes[..startIndex + retval];
    assert content == content[..startIndex + retval];
    RemainderOfPartialChunk(startIndex / BufferSize, retval);
    assert startIndex / BufferSize == |content| / BufferSize;
    r := Success(outBytes[..]);
  }

  /** The reader as evidently intended: it reads only while the offset is
      inside the array, so a column of n bytes takes ⌈n / 100⌉ data reads and
      every length, 0 and the multiples of 100 included, yields the column's
      full content. */
  method GetBlobValueCorrected(row: seq<Field>, columnName: string, behavior: CommandBehavior)
    returns (r: Result<seq<byte>, Exception>, calls: seq<ReaderCall>)
    ensures GetOrdinal(row, columnName).None? ==> r == Failure(MissingColumn(columnName)) && calls == []
    ensures GetOrdinal(row, columnName).Some? && behavior != SequentialAccess ==>
      r == Failure(SequentialAccessRequired) && calls == []
    ensures GetOrdinal(row, columnName).Some? && behavior == SequentialAccess ==>
      var content := row[GetOrdinal(row, columnName).value].content;
      r == Success(content) && calls == [LengthProbe] + ChunkReadsUpTo((|content| + BufferSize - 1) / BufferSize)
  {
    var position := GetOrdinal(row, columnName);
    if position.None? {
      return Failure(MissingColumn(columnName)), [];
    }
    if behavior != SequentialAccess {
      return Failure(SequentialAccessRequired), [];
    }
    var content := row[position.value].content;
    var totalBytes := |content|;
    calls := [LengthProbe];
    var outBytes := new byte[totalBytes];
    var startIndex: nat := 0;
    while startIndex < totalBytes
      invariant startIndex % BufferSize == 0
      invariant outBytes.Length == totalBytes == |content|
      invariant startIndex == 0 || startIndex - BufferSize < totalBytes
      invariant outBytes[..Min(startIndex, totalBytes)] == content[..Min(startIndex, totalBytes)]
      invariant calls == [LengthProbe] + ChunkReadsUpTo(startIndex / BufferSize)
      decreases totalBytes - startIndex
    {
      ghost var filled := outBytes[..startIndex];
      var reply := GetBytes(content, startIndex, outBytes, startIndex, BufferSize);
      assert reply.Success?;
      var retval := reply.value;
      assert outBytes[..startIndex] == filled;
      assert outBytes[..startIndex + retval] == outBytes[..startIndex] + outBytes[startIndex..startIndex + retval];
      assert content[..startIndex + retval] == content[..startIndex] + content[startIndex..startIndex + retval];
      assert ChunkReadsUpTo(startIndex / BufferSize + 1)
          == ChunkReadsUpTo(startIndex / BufferSize) + [ChunkRead(startIndex)];
      calls := calls + [ChunkRead(startIndex)];
      startIndex := startIndex + BufferSize;
    }
    assert outBytes[..] == outBytes[..totalBytes];
    assert content == content[..totalBytes];
    CeilingOfChunks(startIndex / BufferSize, totalBytes);
    r := Success(outBytes[..]);
  }

  /** k chunks of 100 bytes are exactly enough for n bytes when they cover n
      and k - 1 of them do not. */
  lemma CeilingOfChunks(k: nat, n: nat)
    requires n <= k * BufferSize
    requires k == 0 || (k - 1) * BufferSize < n
    ensures (n + BufferSize - 1) / BufferSize == k
  {
  }

  /** A length that ends in a partial, non-empty chunk is not a multiple of 100. */
  lemma RemainderOfPartialChunk(k: nat, rest: nat)
    requires 0 < rest < BufferSize
    ensures (k * BufferSize + rest) % BufferSize == rest
    ensures (k * BufferSize + rest) / BufferSize == k
  {
  }

  /** ASCII decoding as .NET's `Encoding.ASCII.GetString` does it: one
      character per byte, and `?` for every byte outside 7-bit ASCII. */
  function AsciiDecode(bytes: seq<byte>): (text: string)
    ensures |text| == |bytes|
    ensures forall i :: 0 <= i < |text| ==> text[i] as int < 128
    ensures forall i :: 0 <= i < |text| ==> bytes[i] < 128 ==> text[i] as int == bytes[i] as int
  {
    seq(|bytes|, i requires 0 <= i < |bytes| => if bytes[i] < 128 then bytes[i] as int as char else '?')
  }

  /** Reads a large-object column and decodes it as ASCII text. */
  method GetStringFromBlob(row: seq<Field>, columnName: string, behavior: CommandBehavior)
    returns (r: Result<string, Exception>, calls: seq<ReaderCall>)
    ensures GetOrdinal(row, columnName).None? ==> r == Failure(MissingColumn(columnName)) && calls == []
    ensures GetOrdinal(row, columnName).Some? && behavior != SequentialAccess ==>
      r == Failure(SequentialAccessRequired) && calls == []
    ensures GetOrdinal(row, columnName).Some? && behavior == SequentialAccess ==>
      var content := row[GetOrdinal(row, columnName).value].content;
      var n := |content|;
      && calls == [LengthProbe] + ChunkReads(n)
      && r == (if n % BufferSize == 0 then Failure(DestinationIndexRejected(n, n)) else Success(AsciiDecode(content)))
  {
    var bytes;
    bytes, calls := GetBlobValue(row, columnName, behavior);
    match bytes
    case Failure(e) => r := Failure(e);
    case Success(b) => r := Success(AsciiDecode(b));
  }

  // ---------------------------------------------------------------------------
  // The chunk protocol

  /** The bytes each data read returns, starting at `offset`: a read of up
      to 100 bytes, followed by the next read only when this one was full. */
  function ChunksFrom(content: seq<byte>, offset: nat): seq<seq<byte>>
    requires offset <= |content|
    decreases |content| - offset
  {
    var n := Min(BufferSize, |content| - offset);
    [content[offset..offset + n]] + (if n == BufferSize then ChunksFrom(content, offset + BufferSize) else [])
  }

  function Flatten(chunks: seq<seq<byte>>): seq<byte>
  {
    if chunks == [] then [] else chunks[0] + Flatten(chunks[1..])
  }

  /** The chunks read from an offset on are the content from that offset on,
      there are (remaining length) / 100 + 1 of them, all of them full except
      the last, which is short (possibly empty). */
  lemma {:induction false} ChunksCoverContent(content: seq<byte>, offset: nat)
    requires offset <= |content|
    ensures var chunks := ChunksFrom(content, offset);
      && Flatten(chunks) == content[offset..]
      && |chunks| == (|content| - offset) / BufferSize + 1
      && (forall i :: 0 <= i < |chunks| - 1 ==> |chunks[i]| == BufferSize)
      && |chunks[|chunks| - 1]| < BufferSize
    decreases |content| - offset
  {
    var chunks := ChunksFrom(content, offset);
    var n := Min(BufferSize, |content| - offset);
    if n == BufferSize {
      ChunksCoverContent(content, offset + BufferSize);
      var rest := ChunksFrom(content, offset + BufferSize);
      assert chunks == [content[offset..offset + n]] + rest;
      assert chunks[1..] == rest;
      assert content[offset..] == content[offset..offset + n] + content[offset + n..];
      assert (|content| - offset) / BufferSize == (|content| - offset - BufferSize) / BufferSize + 1;
    } else {
      assert chunks == [content[offset..offset + n]];
      assert chunks[1..] == [];
      assert content[offset..offset + n] == content[offset..];
    }
  }

  /** The whole reading protocol from offset 0: the concatenation of the
      chunks is the content, and a field of n bytes takes n / 100 + 1 data
      reads: one for 0 bytes, two for 100, three for 250. */
  lemma ChunkProtocol(content: seq<byte>)
    ensures Flatten(ChunksFrom(content, 0)) == content
    ensures |ChunksFrom(content, 0)| == |ChunkReads(|content|)| == |content| / BufferSize + 1
    ensures |content| == 0 ==> |ChunkReads(|content|)| == 1
    ensures |content| == 100 ==> |ChunkReads(|content|)| == 2
    ensures |content| == 250 ==> |ChunkReads(|content|)| == 3
  {
    ChunksCoverContent(content, 0);
    assert content[0..] == content;
  }
}
