/** Bytes on the wire: big-endian numbers and length-prefixed vectors, each with its reader. */
module TlsBytes {
  import opened Options

  type Byte = x: int | 0 <= x < 256
  type Word = x: int | 0 <= x < 0x1_0000
  type Long = x: int | 0 <= x < 0x100_0000
  type Bytes = seq<Byte>

  function U16(value: Word): (b: Bytes)
    ensures |b| == 2
  {
    [value / 256, value % 256]
  }

  function U16At(b: Bytes, at: nat): Word
    requires at + 2 <= |b|
  {
    b[at] as int * 256 + b[at + 1] as int
  }

  function U24(value: Long): (b: Bytes)
    ensures |b| == 3
  {
    [value / 0x1_0000, value / 256 % 256, value % 256]
  }

  function U24At(b: Bytes, at: nat): Long
    requires at + 3 <= |b|
  {
    b[at] as int * 0x1_0000 + b[at + 1] as int * 256 + b[at + 2] as int
  }

  lemma U16Reads(value: Word, before: Bytes, after: Bytes)
    ensures U16At(before + U16(value) + after, |before|) == value
  {
    var b := before + U16(value) + after;
    assert b[|before|] == U16(value)[0] && b[|before| + 1] == U16(value)[1];
  }

  lemma U24Reads(value: Long, before: Bytes, after: Bytes)
    ensures U24At(before + U24(value) + after, |before|) == value
  {
    var b := before + U24(value) + after;
    assert b[|before|] == U24(value)[0] && b[|before| + 1] == U24(value)[1] && b[|before| + 2] == U24(value)[2];
  }

  function Flatten(parts: seq<Bytes>): Bytes {
    if parts == [] then [] else parts[0] + Flatten(parts[1..])
  }

  function Words(values: seq<Word>): (b: Bytes)
    ensures |b| == 2 * |values|
  {
    if values == [] then [] else U16(values[0]) + Words(values[1..])
  }

  // --- reading from the front -----------------------------------------------------------------------------

  /** What was read and what is left. */
  datatype Read<T> = Read(value: T, rest: Bytes)

  function Take(b: Bytes, n: nat): Option<Read<Bytes>> {
    if |b| < n then None else Some(Read(b[..n], b[n..]))
  }

  function TakeU8(b: Bytes): Option<Read<Byte>> {
    if |b| < 1 then None else Some(Read(b[0], b[1..]))
  }

  function TakeU16(b: Bytes): Option<Read<Word>> {
    if |b| < 2 then None else Some(Read(U16At(b, 0), b[2..]))
  }

  function TakeU24(b: Bytes): Option<Read<Long>> {
    if |b| < 3 then None else Some(Read(U24At(b, 0), b[3..]))
  }

  /** A vector with a two-byte length. */
  function TakeVec16(b: Bytes): Option<Read<Bytes>> {
    match TakeU16(b)
    case None => None
    case Some(length) => Take(length.rest, length.value)
  }

  function TakeVec8(b: Bytes): Option<Read<Bytes>> {
    match TakeU8(b)
    case None => None
    case Some(length) => Take(length.rest, length.value)
  }

  /** A vector of two-byte numbers and nothing else. */
  function AllWords(b: Bytes): Option<seq<Word>> {
    if |b| == 0 then Some([])
    else if |b| == 1 then None
    else match AllWords(b[2..])
      case None => None
      case Some(more) => Some([U16At(b, 0)] + more)
  }

  lemma TakesBack(front: Bytes, rest: Bytes)
    ensures Take(front + rest, |front|) == Some(Read(front, rest))
  {
    assert (front + rest)[..|front|] == front && (front + rest)[|front|..] == rest;
  }

  lemma TakesU16Back(value: Word, rest: Bytes)
    ensures TakeU16(U16(value) + rest) == Some(Read(value, rest))
  {
    assert (U16(value) + rest)[2..] == rest;
  }

  lemma TakesU24Back(value: Long, rest: Bytes)
    ensures TakeU24(U24(value) + rest) == Some(Read(value, rest))
  {
    assert (U24(value) + rest)[3..] == rest;
  }

  lemma TakesVec16Back(data: Bytes, rest: Bytes)
    requires |data| < 0x1_0000
    ensures TakeVec16(U16(|data|) + data + rest) == Some(Read(data, rest))
  {
    assert U16(|data|) + data + rest == U16(|data|) + (data + rest);
    TakesU16Back(|data|, data + rest);
    TakesBack(data, rest);
  }

  lemma TakesVec8Back(data: Bytes, rest: Bytes)
    requires |data| < 256
    ensures TakeVec8([|data|] + data + rest) == Some(Read(data, rest))
  {
    assert ([|data|] + data + rest)[1..] == data + rest;
    TakesBack(data, rest);
  }

  lemma {:induction false} AllWordsBack(values: seq<Word>)
    ensures AllWords(Words(values)) == Some(values)
  {
    if values != [] {
      AllWordsBack(values[1..]);
      assert Words(values)[2..] == Words(values[1..]);
      assert [values[0]] + values[1..] == values;
    }
  }
}
