/** PNG chunk framing: length, type, data and checksum. */
module PngChunk {
  import opened Common
  import opened Crc32

  /** The four octets of a 32-bit word, most significant first. */
  function Word(r: Register): seq<Octet> {
    [r[24..32], r[16..24], r[8..16], r[..8]]
  }

  function Unword(w: seq<Octet>): Register
    requires |w| == 4
  {
    Bytewise(w[3], w[2], w[1], w[0])
  }

  function Bytewise(a: seq<bool>, b: seq<bool>, c: seq<bool>, d: seq<bool>): seq<bool> { a + b + c + d }

  lemma UnwordWord(r: Register)
    ensures Unword(Word(r)) == r
  {
  }

  lemma WordUnword(w: seq<Octet>)
    requires |w| == 4
    ensures Word(Unword(w)) == w
  {
    var r := Unword(w);
    assert r[24..32] == w[0] && r[16..24] == w[1] && r[8..16] == w[2] && r[..8] == w[3];
  }

  /** `writeUInt32BE` refuses a value that needs more than 32 bits. */
  function Chunk(kind: seq<Octet>, data: seq<Octet>): Option<seq<Octet>> {
    if |data| >= 0x1_0000_0000 then None
    else Some(Word(Bits(|data|, 32)) + kind + data + Word(Crc(kind + data)))
  }

  datatype Decoded = Decoded(kind: seq<Octet>, data: seq<Octet>, rest: seq<Octet>)

  /** Reads one chunk off a stream: the declared length, the type, that much data, a matching checksum. */
  function ReadChunk(stream: seq<Octet>): (r: Option<Decoded>)
    ensures r.Some? ==> |r.value.kind| == 4 && |stream| == 12 + |r.value.data| + |r.value.rest|
  {
    if |stream| < 12 then None
    else
      var length := Value(Unword(stream[..4]));
      if |stream| < 12 + length then None
      else
        var body := stream[4..8 + length];
        if Unword(stream[8 + length..12 + length]) != Crc(body) then None
        else Some(Decoded(body[..4], body[4..], stream[12 + length..]))
  }

  lemma ChunkParts(kind: seq<Octet>, data: seq<Octet>, sum: seq<Octet>, rest: seq<Octet>, head: seq<Octet>)
    requires |kind| == 4 && |head| == 4 && |sum| == 4
    ensures var stream := head + kind + data + sum + rest; var n := |data|;
      && |stream| == 12 + n + |rest| && stream[..4] == head && stream[4..8 + n] == kind + data
      && stream[8 + n..12 + n] == sum && stream[12 + n..] == rest
  {
  }

  /** A stream whose parts are known is read as those parts, or refused when the checksum differs. */
  lemma ReadParts(kind: seq<Octet>, data: seq<Octet>, sum: Register, rest: seq<Octet>)
    requires |kind| == 4 && |data| < 0x1_0000_0000
    ensures ReadChunk(Word(Bits(|data|, 32)) + kind + data + Word(sum) + rest)
      == if sum == Crc(kind + data) then Some(Decoded(kind, data, rest)) else None
  {
    var length := Bits(|data|, 32);
    WordPowers();
    BitsValue(|data|, 32);
    UnwordWord(length);
    UnwordWord(sum);
    ChunkParts(kind, data, Word(sum), rest, Word(length));
    assert (kind + data)[..4] == kind && (kind + data)[4..] == data;
  }

  /** Whatever follows a chunk, reading it back gives its type, its data and what follows. */
  lemma ChunkReadsBack(kind: seq<Octet>, data: seq<Octet>, rest: seq<Octet>)
    requires |kind| == 4 && Chunk(kind, data).Some?
    ensures ReadChunk(Chunk(kind, data).value + rest) == Some(Decoded(kind, data, rest))
  {
    ReadParts(kind, data, Crc(kind + data), rest);
  }

  /** What is read off a stream is exactly what the stream begins with: the encoding of the type and the data. */
  lemma ReadChunkIff(stream: seq<Octet>, d: Decoded)
    ensures ReadChunk(stream) == Some(d) <==>
      |d.kind| == 4 && Chunk(d.kind, d.data).Some? && stream == Chunk(d.kind, d.data).value + d.rest
  {
    if ReadChunk(stream) == Some(d) {
      ReadIsChunk(stream, d);
    } else if |d.kind| == 4 && Chunk(d.kind, d.data).Some? && stream == Chunk(d.kind, d.data).value + d.rest {
      ChunkReadsBack(d.kind, d.data, d.rest);
    }
  }

  lemma ReadIsChunk(stream: seq<Octet>, d: Decoded)
    requires ReadChunk(stream) == Some(d)
    ensures |d.kind| == 4 && Chunk(d.kind, d.data).Some? && stream == Chunk(d.kind, d.data).value + d.rest
  {
    var n := Value(Unword(stream[..4]));
    var body, sum := stream[4..8 + n], stream[8 + n..12 + n];
    LengthWord(stream[..4], n);
    WordUnword(sum);
    CutBody(body, d.kind, d.data);
    CutStream(stream, n, d.kind, d.data);
  }

  lemma LengthWord(head: seq<Octet>, n: nat)
    requires |head| == 4 && n == Value(Unword(head))
    ensures n < 0x1_0000_0000 && head == Word(Bits(n, 32))
  {
    WordPowers();
    ValueBits(Unword(head));
    WordUnword(head);
  }

  lemma CutBody(body: seq<Octet>, kind: seq<Octet>, data: seq<Octet>)
    requires |body| >= 4 && kind == body[..4] && data == body[4..]
    ensures body == kind + data && |kind| == 4 && |data| == |body| - 4
  {
  }

  lemma CutStream(stream: seq<Octet>, n: nat, kind: seq<Octet>, data: seq<Octet>)
    requires |stream| >= 12 + n && stream[4..8 + n] == kind + data
    ensures stream == stream[..4] + kind + data + stream[8 + n..12 + n] + stream[12 + n..]
  {
    assert stream[..8 + n] == stream[..4] + (kind + data);
    assert stream == stream[..8 + n] + stream[8 + n..12 + n] + stream[12 + n..];
  }

  /** Damage confined to four consecutive bytes of a chunk's type and data makes it unreadable. */
  lemma DamagedChunkRefused(kind: seq<Octet>, data: seq<Octet>, kind': seq<Octet>, data': seq<Octet>, at: nat,
                            rest: seq<Octet>)
    requires |kind| == |kind'| == 4 && |data| == |data'| < 0x1_0000_0000 && kind + data != kind' + data'
    requires forall i :: 0 <= i < 4 + |data| && !(at <= i < at + 4) ==> (kind + data)[i] == (kind' + data')[i]
    ensures ReadChunk(Word(Bits(|data|, 32)) + kind' + data' + Word(Crc(kind + data)) + rest) == None
  {
    ReadParts(kind', data', Crc(kind + data), rest);
    FourByteDamageDetected(kind + data, kind' + data', at);
  }

  /** A file is its chunks one after another. */
  datatype Piece = Piece(kind: seq<Octet>, data: seq<Octet>)

  predicate Framable(p: Piece) { |p.kind| == 4 && |p.data| < 0x1_0000_0000 }

  predicate AllFramable(pieces: seq<Piece>) { forall i :: 0 <= i < |pieces| ==> Framable(pieces[i]) }

  function Stream(pieces: seq<Piece>): seq<Octet>
    requires AllFramable(pieces)
  {
    if pieces == [] then []
    else
      assert Framable(pieces[0]);
      Chunk(pieces[0].kind, pieces[0].data).value + Stream(pieces[1..])
  }

  function ReadAll(stream: seq<Octet>): Option<seq<Piece>>
    decreases |stream|
  {
    if stream == [] then Some([])
    else match ReadChunk(stream)
      case None => None
      case Some(d) => Prepend(Piece(d.kind, d.data), ReadAll(d.rest))
  }

  function Prepend(first: Piece, more: Option<seq<Piece>>): Option<seq<Piece>> {
    if more.None? then None else Some([first] + more.value)
  }

  /** Reading a whole file gives back its chunks, in order, and nothing else. */
  lemma {:induction false} StreamReadsBack(pieces: seq<Piece>)
    requires AllFramable(pieces)
    ensures ReadAll(Stream(pieces)) == Some(pieces)
  {
    if pieces != [] {
      StreamReadsBack(pieces[1..]);
      FirstReadsBack(pieces[0], Stream(pieces[1..]));
      PrependRest(pieces);
    }
  }

  lemma PrependRest(pieces: seq<Piece>)
    requires pieces != []
    ensures Prepend(pieces[0], Some(pieces[1..])) == Some(pieces)
  {
    assert pieces == [pieces[0]] + pieces[1..];
  }

  lemma FirstReadsBack(first: Piece, rest: seq<Octet>)
    requires Framable(first)
    ensures ReadAll(Chunk(first.kind, first.data).value + rest) == Prepend(first, ReadAll(rest))
  {
    ChunkReadsBack(first.kind, first.data, rest);
  }
}
