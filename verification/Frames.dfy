// Length-prefixed frames of the gossip transport: the incremental decoder and the
// receive loop that cuts chunks of a byte stream into messages.
//
// `Push` and `Feed` are the reference: a decoder that takes one byte at a time.
// `Message` and `Connection` are the code's decoder, which copies whole slices.
module Frames {

  type Byte = b: int | 0 <= b < 0x100

  const HEADER_BYTES := 5
  const HEADER_LENGTH_BYTES := 4

  datatype Frame = Frame(kind: Byte, payload: seq<Byte>)

  // The bytes of an unfinished message and the frames handed over so far.
  datatype Stream = Stream(buffer: seq<Byte>, delivered: seq<Frame>)

  // The number whose digits in base 256 are `digits`, most significant first.
  function BigEndian(digits: seq<Byte>): nat {
    if digits == [] then 0
    else BigEndian(digits[..|digits| - 1]) * 0x100 + digits[|digits| - 1]
  }

  // The payload length announced by a buffer; 0 while the header is incomplete.
  function Announced(buffer: seq<Byte>): nat {
    if |buffer| < HEADER_BYTES then 0 else BigEndian(buffer[..HEADER_LENGTH_BYTES])
  }

  predicate Complete(buffer: seq<Byte>) {
    |buffer| >= HEADER_BYTES && |buffer| == Announced(buffer) + HEADER_BYTES
  }

  // A buffer that has not gone past the end of the message it announces.
  predicate Unfinished(buffer: seq<Byte>) {
    |buffer| >= HEADER_BYTES ==> |buffer| < Announced(buffer) + HEADER_BYTES
  }

  function FrameOf(buffer: seq<Byte>): Frame
    requires |buffer| >= HEADER_BYTES
  {
    Frame(buffer[HEADER_LENGTH_BYTES], buffer[HEADER_BYTES..])
  }

  // --- the reference decoder ------------------------------------------------------

  function Push(s: Stream, b: Byte): Stream {
    var buffer := s.buffer + [b];
    if Complete(buffer) then Stream([], s.delivered + [FrameOf(buffer)]) else s.(buffer := buffer)
  }

  function Feed(s: Stream, bytes: seq<Byte>): Stream
    decreases |bytes|
  {
    if bytes == [] then s else Feed(Push(s, bytes[0]), bytes[1..])
  }

  function FeedChunks(s: Stream, chunks: seq<seq<Byte>>): Stream
    decreases |chunks|
  {
    if chunks == [] then s else FeedChunks(Feed(s, chunks[0]), chunks[1..])
  }

  // --- the encoder ----------------------------------------------------------------

  function LengthBytes(size: nat): (r: seq<Byte>) {
    [size / 0x100_0000 % 0x100, size / 0x1_0000 % 0x100, size / 0x100 % 0x100, size % 0x100]
  }

  function Encode(f: Frame): seq<Byte> {
    LengthBytes(|f.payload|) + [f.kind] + f.payload
  }

  function EncodeAll(frames: seq<Frame>): seq<Byte> {
    if frames == [] then [] else Encode(frames[0]) + EncodeAll(frames[1..])
  }

  function Flatten(chunks: seq<seq<Byte>>): seq<Byte> {
    if chunks == [] then [] else chunks[0] + Flatten(chunks[1..])
  }

  predicate Transmissible(f: Frame) {
    |f.payload| < 0x8000_0000
  }

  // --- what the header means --------------------------------------------------------

  lemma DigitsOfSize(size: nat)
    requires size < 0x1_0000_0000
    ensures BigEndian(LengthBytes(size)) == size
  {
    var d := LengthBytes(size);
    var d0: int, d1: int, d2: int := d[0], d[1], d[2];
    assert d[..3][..2][..1] == [d[0]] && d[..3][..2] == [d[0], d[1]] && d[..3] == [d[0], d[1], d[2]];
    assert BigEndian(d[..3][..2][..1]) == d0;
    assert BigEndian(d[..3][..2]) == d0 * 0x100 + d1;
    assert BigEndian(d[..3]) == (d0 * 0x100 + d1) * 0x100 + d2;
    Digits(size);
  }

  lemma Digits(size: nat)
    requires size < 0x1_0000_0000
    ensures ((size / 0x100_0000 % 0x100 * 0x100 + size / 0x1_0000 % 0x100) * 0x100 + size / 0x100 % 0x100) * 0x100
            + size % 0x100 == size
  {
    var a := size / 0x100;
    var b := a / 0x100;
    assert b == size / 0x1_0000 && b / 0x100 == size / 0x100_0000;
  }

  /** The wire format: four length bytes, most significant first, the type byte, and the payload. */
  lemma WireFormat(f: Frame)
    requires Transmissible(f)
    ensures var e := Encode(f);
            && |e| == |f.payload| + 5
            && e[0] as int * 0x100_0000 + e[1] as int * 0x1_0000 + e[2] as int * 0x100 + e[3] as int == |f.payload|
            && e[4] == f.kind && e[5..] == f.payload
  {
    Digits(|f.payload|);
  }

  // The announced length depends on the header alone.
  lemma AnnouncedByHeader(buffer: seq<Byte>, more: seq<Byte>)
    requires |buffer| >= HEADER_BYTES
    ensures Announced(buffer + more) == Announced(buffer)
  {
    assert (buffer + more)[..HEADER_LENGTH_BYTES] == buffer[..HEADER_LENGTH_BYTES];
  }

  lemma EncodedIsComplete(f: Frame)
    requires Transmissible(f)
    ensures Complete(Encode(f)) && FrameOf(Encode(f)) == f
    ensures forall n | HEADER_BYTES <= n < |Encode(f)| :: Unfinished(Encode(f)[..n])
  {
    var e := Encode(f);
    DigitsOfSize(|f.payload|);
    assert e[..HEADER_LENGTH_BYTES] == LengthBytes(|f.payload|);
    assert FrameOf(e).payload == f.payload;
    forall n | HEADER_BYTES <= n < |e|
      ensures Unfinished(e[..n])
    {
      assert e == e[..n] + e[n..];
      AnnouncedByHeader(e[..n], e[n..]);
    }
  }

  // --- chunk independence -----------------------------------------------------------

  /** Feeding two chunks one after the other leaves the same buffer and the same deliveries
      as feeding their concatenation. */
  lemma {:induction false} FeedAppend(s: Stream, xs: seq<Byte>, ys: seq<Byte>)
    ensures Feed(s, xs + ys) == Feed(Feed(s, xs), ys)
    decreases |xs|
  {
    if xs == [] {
      assert xs + ys == ys;
    } else {
      assert (xs + ys)[1..] == xs[1..] + ys;
      FeedAppend(Push(s, xs[0]), xs[1..], ys);
    }
  }

  lemma {:induction false} ChunkingIsInvisible(s: Stream, chunks: seq<seq<Byte>>)
    ensures FeedChunks(s, chunks) == Feed(s, Flatten(chunks))
    decreases |chunks|
  {
    if chunks != [] {
      FeedAppend(s, chunks[0], Flatten(chunks[1..]));
      ChunkingIsInvisible(Feed(s, chunks[0]), chunks[1..]);
    }
  }

  // A stretch of bytes that completes no message is just appended to the buffer.
  lemma {:induction false} FeedIncomplete(s: Stream, bytes: seq<Byte>)
    requires forall n | 0 < n <= |bytes| :: !Complete(s.buffer + bytes[..n])
    ensures Feed(s, bytes) == s.(buffer := s.buffer + bytes)
    decreases |bytes|
  {
    if bytes == [] {
      assert s.buffer + bytes == s.buffer;
    } else {
      assert bytes[..1] == [bytes[0]];
      var t := Push(s, bytes[0]);
      forall n | 0 < n <= |bytes[1..]|
        ensures !Complete(t.buffer + bytes[1..][..n])
      {
        assert t.buffer + bytes[1..][..n] == s.buffer + bytes[..n + 1];
      }
      FeedIncomplete(t, bytes[1..]);
      assert t.buffer + bytes[1..] == s.buffer + bytes;
    }
  }

  // A stretch whose last byte, and no earlier one, completes the message.
  lemma FeedToCompletion(s: Stream, bytes: seq<Byte>)
    requires bytes != [] && Complete(s.buffer + bytes)
    requires forall n | 0 < n < |bytes| :: !Complete(s.buffer + bytes[..n])
    ensures Feed(s, bytes) == Stream([], s.delivered + [FrameOf(s.buffer + bytes)])
  {
    var k := |bytes| - 1;
    var init, last := bytes[..k], bytes[k..];
    assert bytes == init + last && last == [bytes[k]];
    forall n | 0 < n <= |init|
      ensures !Complete(s.buffer + init[..n])
    {
      assert init[..n] == bytes[..n];
    }
    FeedIncomplete(s, init);
    FeedAppend(s, init, last);
    assert s.buffer + init + last == s.buffer + bytes;
    assert Feed(Feed(s, init), last) == Push(Feed(s, init), bytes[k]);
  }

  lemma FeedFrame(delivered: seq<Frame>, f: Frame)
    requires Transmissible(f)
    ensures Feed(Stream([], delivered), Encode(f)) == Stream([], delivered + [f])
  {
    var s := Stream([], delivered);
    EncodedIsComplete(f);
    assert s.buffer + Encode(f) == Encode(f);
    forall n | 0 < n < |Encode(f)|
      ensures !Complete(s.buffer + Encode(f)[..n])
    {
      assert s.buffer + Encode(f)[..n] == Encode(f)[..n];
      if n >= HEADER_BYTES {
        assert Unfinished(Encode(f)[..n]);
      }
    }
    FeedToCompletion(s, Encode(f));
  }

  lemma {:induction false} FeedFrames(delivered: seq<Frame>, frames: seq<Frame>)
    requires forall f | f in frames :: Transmissible(f)
    ensures Feed(Stream([], delivered), EncodeAll(frames)) == Stream([], delivered + frames)
    decreases |frames|
  {
    if frames == [] {
      assert delivered + frames == delivered;
    } else {
      FeedFrame(delivered, frames[0]);
      FeedAppend(Stream([], delivered), Encode(frames[0]), EncodeAll(frames[1..]));
      FeedFrames(delivered + [frames[0]], frames[1..]);
      assert delivered + [frames[0]] + frames[1..] == delivered + frames;
    }
  }

  /** Stream reassembly: however the encodings of a list of messages are cut into chunks,
      exactly those messages are delivered, in order, and no byte is left over. */
  lemma Reassembly(frames: seq<Frame>, chunks: seq<seq<Byte>>)
    requires forall f | f in frames :: Transmissible(f)
    requires Flatten(chunks) == EncodeAll(frames)
    ensures FeedChunks(Stream([], []), chunks) == Stream([], frames)
  {
    ChunkingIsInvisible(Stream([], []), chunks);
    FeedFrames([], frames);
    assert [] + frames == frames;
  }

  // Two different message lists never share an encoding.
  lemma EncodingIsInjective(a: seq<Frame>, b: seq<Frame>)
    requires forall f | f in a :: Transmissible(f)
    requires forall f | f in b :: Transmissible(f)
    requires EncodeAll(a) == EncodeAll(b)
    ensures a == b
  {
    FeedFrames([], a);
    FeedFrames([], b);
    assert [] + a == a && [] + b == b;
  }

  // --- the code's decoder -----------------------------------------------------------

  // Bytes taken without running past the end of the message complete nothing earlier.
  lemma NoCompletionBefore(buffer: seq<Byte>, data: seq<Byte>, consumed: nat)
    requires Unfinished(buffer) && consumed <= |data|
    requires Unfinished(buffer + data[..consumed]) || Complete(buffer + data[..consumed])
    ensures forall n | 0 < n < consumed :: !Complete(buffer + data[..n])
  {
    forall n | 0 < n < consumed
      ensures !Complete(buffer + data[..n])
    {
      var part := buffer + data[..n];
      if |part| >= HEADER_BYTES {
        AnnouncedByHeader(part, data[n..consumed]);
        assert part + data[n..consumed] == buffer + data[..consumed];
      }
    }
  }

  class Message {
    var buffer: seq<Byte>

    constructor Empty()
      ensures buffer == []
    {
      buffer := [];
    }

    /** The sending side: length bytes most significant first, then the type, then the payload. */
    constructor (kind: Byte, data: seq<Byte>)
      requires |data| < 0x1_0000_0000_0000_0000
      ensures buffer == Encode(Frame(kind, data))
    {
      var bytes: seq<Byte> := [];
      var i := 0;
      while i < HEADER_LENGTH_BYTES
        invariant 0 <= i <= HEADER_LENGTH_BYTES
        invariant bytes == LengthBytes(|data|)[..i]
      {
        bytes := bytes + [ShiftRight(|data|, HEADER_LENGTH_BYTES - i - 1) % 0x100];
        i := i + 1;
      }
      buffer := bytes + [kind] + data;
    }

    // `size >> (8 * k)` for the four shifts the encoder makes.
    static function ShiftRight(size: nat, k: nat): nat
      requires k < HEADER_LENGTH_BYTES
    {
      if k == 0 then size else if k == 1 then size / 0x100 else if k == 2 then size / 0x1_0000 else size / 0x100_0000
    }

    predicate IsHeaderOut()
      reads this
    {
      |buffer| >= HEADER_BYTES
    }

    method Length() returns (result: nat)
      ensures result == Announced(buffer)
    {
      if |buffer| < HEADER_BYTES {
        return 0;
      }
      result := 0;
      var i := 0;
      while i < HEADER_LENGTH_BYTES
        invariant 0 <= i <= HEADER_LENGTH_BYTES
        invariant result == BigEndian(buffer[..i])
      {
        assert buffer[..i + 1][..i] == buffer[..i];
        result := result * 0x100 + buffer[i];
        i := i + 1;
      }
    }

    method IsSatisfied() returns (r: bool)
      ensures r == Complete(buffer)
    {
      var length := Length();
      r := IsHeaderOut() && |buffer| == length + HEADER_BYTES;
    }

    function Data(): seq<Byte>
      requires IsHeaderOut()
      reads this
    {
      buffer[HEADER_BYTES..]
    }

    method Reset()
      modifies this
      ensures buffer == []
    {
      buffer := [];
    }

    method DecodeHeader(data: seq<Byte>) returns (consumed: nat)
      requires !IsHeaderOut()
      modifies this
      ensures consumed <= |data| && buffer == old(buffer) + data[..consumed]
      ensures IsHeaderOut() ==> |buffer| == HEADER_BYTES
      ensures !IsHeaderOut() ==> consumed == |data|
      ensures data != [] ==> consumed > 0
    {
      if |buffer| + |data| < HEADER_BYTES {
        consumed := |data|;
      } else {
        consumed := HEADER_BYTES - |buffer|;
      }
      buffer := buffer + data[..consumed];
    }

    method DecodeBody(data: seq<Byte>) returns (consumed: nat)
      requires IsHeaderOut() && (Unfinished(buffer) || Complete(buffer))
      modifies this
      ensures consumed <= |data| && buffer == old(buffer) + data[..consumed]
      ensures Complete(buffer) || (Unfinished(buffer) && consumed == |data|)
      ensures old(Unfinished(buffer)) && data != [] ==> consumed > 0
    {
      var length := Length();
      var expected := length + HEADER_BYTES - |buffer|;
      consumed := if expected < |data| then expected else |data|;
      AnnouncedByHeader(buffer, data[..consumed]);
      buffer := buffer + data[..consumed];
    }

    /** Decoder progress: on an unfinished message and non-empty input at least one byte is taken,
        and all of it unless the message is completed; the bytes taken are exactly those up to
        the first completion. A finished message takes nothing. */
    method Decode(data: seq<Byte>) returns (consumed: nat)
      requires Unfinished(buffer) || Complete(buffer)
      modifies this
      ensures consumed <= |data| && buffer == old(buffer) + data[..consumed]
      ensures old(Complete(buffer)) ==> consumed == 0
      ensures old(Unfinished(buffer)) && data != [] ==> consumed > 0
      ensures Complete(buffer) || (Unfinished(buffer) && consumed == |data|)
      ensures forall n | 0 < n < consumed :: !Complete(old(buffer) + data[..n])
    {
      ghost var before := buffer;
      assert data[..0] == [];
      var satisfied := IsSatisfied();
      if satisfied {
        return 0;
      }
      consumed := 0;
      if !IsHeaderOut() {
        consumed := DecodeHeader(data);
      }
      if IsHeaderOut() && |data| > consumed {
        var body := DecodeBody(data[consumed..]);
        assert data[..consumed] + data[consumed..][..body] == data[..consumed + body];
        consumed := consumed + body;
      }
      assert buffer == before + data[..consumed];
      NoCompletionBefore(before, data, consumed);
    }
  }

  // The receiving end of one connection; `delivered` stands for the calls of the receive handler.
  class Connection {
    const message: Message
    var delivered: seq<Frame>

    constructor ()
      ensures fresh(message) && Value() == Stream([], []) && Valid()
    {
      message := new Message.Empty();
      delivered := [];
    }

    ghost predicate Valid()
      reads this, message
    {
      Unfinished(message.buffer)
    }

    ghost function Value(): Stream
      reads this, message
    {
      Stream(message.buffer, delivered)
    }

    /** The receive loop refines the byte-at-a-time decoder, for every chunk and every buffer
        left by earlier chunks. */
    method Receive(chunk: seq<Byte>)
      requires Valid()
      modifies this, message
      ensures Valid() && Value() == Feed(old(Value()), chunk)
    {
      var decoded := 0;
      assert chunk[..0] == [];
      while decoded < |chunk|
        invariant 0 <= decoded <= |chunk|
        invariant Valid() && Value() == Feed(old(Value()), chunk[..decoded])
      {
        ghost var before := Value();
        ghost var start := decoded;
        var rest := chunk[decoded..];
        var consumed := message.Decode(rest);
        decoded := decoded + consumed;
        ghost var taken := rest[..consumed];
        forall n | 0 < n < |taken|
          ensures !Complete(before.buffer + taken[..n])
        {
          assert taken[..n] == rest[..n];
        }
        var satisfied := message.IsSatisfied();
        if satisfied {
          FeedToCompletion(before, taken);
          delivered := delivered + [Frame(message.buffer[HEADER_LENGTH_BYTES], message.Data())];
          message.Reset();
        } else {
          forall n | 0 < n <= |taken|
            ensures !Complete(before.buffer + taken[..n])
          {
            assert n == |taken| ==> taken[..n] == taken;
          }
          FeedIncomplete(before, taken);
        }
        assert chunk[..decoded] == chunk[..start] + taken;
        FeedAppend(old(Value()), chunk[..start], taken);
      }
      assert chunk[..decoded] == chunk;
    }

    // A run of the loop over successive chunks.
    method ReceiveAll(chunks: seq<seq<Byte>>)
      requires Valid()
      modifies this, message
      ensures Valid() && Value() == Feed(old(Value()), Flatten(chunks))
    {
      var i := 0;
      ghost var all := Flatten(chunks);
      assert chunks[0..] == chunks;
      while i < |chunks|
        invariant 0 <= i <= |chunks|
        invariant Valid() && Feed(Value(), Flatten(chunks[i..])) == Feed(old(Value()), all)
      {
        assert chunks[i..][1..] == chunks[i + 1..];
        FeedAppend(Value(), chunks[i], Flatten(chunks[i + 1..]));
        Receive(chunks[i]);
        i := i + 1;
      }
    }
  }
}
