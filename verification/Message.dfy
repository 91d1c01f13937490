/** Length-prefixed messages in the reliable stream: a little-endian u16 length
    that counts its own header, an opcode, an id and the body. */
module Messages {
  import opened Bytes
  import opened Seqs
  import opened Packets

  const HEADER := 4
  const MAX_BODY := 65531

  datatype Message = Message(opcode: byte, id: byte, body: seq<byte>)

  /** The length is cast to 16 bits, so one over 65535 wraps. */
  function Encoded(m: Message): seq<byte> {
    Le16((HEADER + |m.body|) % 0x1_0000) + [m.opcode, m.id] + m.body
  }

  function EncodedAll(ms: seq<Message>): seq<byte>
    decreases |ms|
  {
    if ms == [] then [] else Encoded(ms[0]) + EncodedAll(ms[1..])
  }

  datatype Read = Read(out: seq<Message>, buffer: seq<byte>)

  function Total(buffer: seq<byte>): u16
    requires |buffer| >= HEADER
  {
    FromLe16(buffer[0], buffer[1])
  }

  /** Nothing more can be read yet. */
  predicate Partial(buffer: seq<byte>) {
    |buffer| < HEADER || (Total(buffer) >= HEADER && |buffer| < Total(buffer))
  }

  function ReadAll(buffer: seq<byte>): Read
    decreases |buffer|
  {
    if Partial(buffer) then Read([], buffer)
    else if Total(buffer) < HEADER then Read([], [])
    else
      var rest := ReadAll(buffer[Total(buffer)..]);
      Read([Message(buffer[2], buffer[3], buffer[HEADER..Total(buffer)])] + rest.out, rest.buffer)
  }

  /** Reading never meets a length shorter than a header. */
  predicate Sound(buffer: seq<byte>)
    decreases |buffer|
  {
    || Partial(buffer)
    || (Total(buffer) >= HEADER && Sound(buffer[Total(buffer)..]))
  }

  class MessageReader {
    var buffer: seq<byte>

    constructor ()
      ensures buffer == []
    {
      buffer := [];
    }

    method Push(bytes: seq<byte>) returns (out: seq<Message>)
      modifies this
      ensures Read(out, buffer) == ReadAll(old(buffer) + bytes)
    {
      hide Total;
      buffer := buffer + bytes;
      ghost var all := buffer;
      out := [];
      ConcatEmpty(ReadAll(all).out);
      while true
        invariant Read(out + ReadAll(buffer).out, ReadAll(buffer).buffer) == ReadAll(all)
        decreases |buffer|
      {
        ConcatEmpty(out);
        if |buffer| < HEADER {
          break;
        }
        TotalIs(buffer);
        var total := FromLe16(buffer[0], buffer[1]);
        if total < HEADER {
          buffer := [];
          break;
        }
        if |buffer| < total {
          break;
        }
        var rest := buffer[total..];
        var raw := buffer[..total];
        assert raw[HEADER..] == buffer[HEADER..total];
        ConcatAssociative(out, [Message(raw[2], raw[3], raw[HEADER..])], ReadAll(rest).out);
        out := out + [Message(raw[2], raw[3], raw[HEADER..])];
        buffer := rest;
      }
    }

    method Reset()
      modifies this
      ensures buffer == []
    {
      buffer := [];
    }
  }

  lemma TotalIs(buffer: seq<byte>)
    requires |buffer| >= HEADER
    ensures Total(buffer) == FromLe16(buffer[0], buffer[1])
  {}

  // ---- Chunking ----

  /** Reading what can be read of `x` first changes nothing, unless `x` holds a
      corrupt length: then the reader drops its buffer, and what comes after. */
  lemma {:induction false} ReadInTwo(x: seq<byte>, y: seq<byte>)
    requires Sound(x)
    ensures var r := ReadAll(x);
            var s := ReadAll(r.buffer + y);
            ReadAll(x + y) == Read(r.out + s.out, s.buffer)
    decreases |x|
  {
    var r := ReadAll(x);
    if Partial(x) {
      ConcatEmpty(ReadAll(x + y).out);
    } else {
      hide Total;
      SamePrefix(x, y);
      var t := Total(x);
      ReadInTwo(x[t..], y);
      ConcatAssociative([Message(x[2], x[3], x[HEADER..t])], ReadAll(x[t..]).out, ReadAll(r.buffer + y).out);
    }
  }

  lemma SamePrefix(x: seq<byte>, y: seq<byte>)
    requires |x| >= HEADER && HEADER <= Total(x) <= |x|
    ensures var t := Total(x);
            && Total(x + y) == t && !Partial(x + y)
            && (x + y)[t..] == x[t..] + y
            && (x + y)[HEADER..t] == x[HEADER..t]
  {}

  lemma {:induction false} SoundPrefix(x: seq<byte>, y: seq<byte>)
    requires Sound(x + y)
    ensures Sound(x)
    decreases |x|
  {
    if !Partial(x) {
      assert Total(x + y) == Total(x);
      if HEADER <= Total(x) {
        SamePrefix(x, y);
        SoundPrefix(x[Total(x)..], y);
      }
    }
  }

  lemma {:induction false} SoundRest(x: seq<byte>, y: seq<byte>)
    requires Sound(x + y) && Sound(x)
    ensures Sound(ReadAll(x).buffer + y)
    decreases |x|
  {
    if !Partial(x) {
      hide Total;
      SamePrefix(x, y);
      SoundRest(x[Total(x)..], y);
    }
  }

  function PushMessages(buffer: seq<byte>, chunks: seq<seq<byte>>): Read
    decreases |chunks|
  {
    if chunks == [] then Read([], buffer)
    else
      var first := ReadAll(buffer + chunks[0]);
      var rest := PushMessages(first.buffer, chunks[1..]);
      Read(first.out + rest.out, rest.buffer)
  }

  /** However a sound stream is cut, it reads as the same messages. */
  lemma {:induction false} ReadingIgnoresChunking(buffer: seq<byte>, chunks: seq<seq<byte>>)
    requires Partial(buffer) && Sound(buffer + Flatten(chunks))
    ensures PushMessages(buffer, chunks) == ReadAll(buffer + Flatten(chunks))
    decreases |chunks|
  {
    hide Total;
    if chunks == [] {
      ConcatEmpty(buffer);
    } else {
      hide Partial, ReadAll, Sound;
      var x, y := buffer + chunks[0], Flatten(chunks[1..]);
      ConcatAssociative(buffer, chunks[0], y);
      SoundPrefix(x, y);
      SoundRest(x, y);
      ReadInTwo(x, y);
      LeavesPartial(x);
      ReadingIgnoresChunking(ReadAll(x).buffer, chunks[1..]);
    }
  }

  lemma {:induction false} LeavesPartial(x: seq<byte>)
    ensures Partial(ReadAll(x).buffer)
    decreases |x|
  {
    if !Partial(x) && Total(x) >= HEADER {
      LeavesPartial(x[Total(x)..]);
    }
  }

  /** All cuts of a stream read as it does in one piece. */
  ghost predicate CutsAgree(x: seq<byte>) {
    forall chunks :: Flatten(chunks) == x ==> PushMessages([], chunks) == ReadAll(x)
  }

  /** No corrupt length is complete before the last byte. */
  predicate SoundToTheLast(x: seq<byte>) {
    x == [] || Sound(x[..|x| - 1])
  }

  /** The cut of a stream matters exactly when a corrupt length comes before its
      last byte: cut there, that byte is kept; in one piece, it is dropped. */
  lemma CutsAgreeIffSoundToTheLast(x: seq<byte>)
    ensures CutsAgree(x) <==> SoundToTheLast(x)
  {
    hide ReadAll, Sound, PushMessages;
    if SoundToTheLast(x) {
      forall chunks | Flatten(chunks) == x ensures PushMessages([], chunks) == ReadAll(x) {
        ConcatEmpty(x);
        assert Partial([]);
        CutsToTheLast([], chunks);
      }
    } else {
      var k := |x| - 1;
      assert x == x[..k] + [x[k]];
      LastByteIsKept(x[..k], x[k]);
      FlattenTwo(x[..k], [x[k]]);
    }
  }

  lemma FlattenTwo(x: seq<byte>, y: seq<byte>)
    ensures Flatten([x, y]) == x + y
  {
    var none: seq<seq<byte>> := [];
    assert [x, y][1..] == [y] && [y][1..] == none;
    assert Flatten([y]) == y + Flatten(none) == y;
  }

  /** A reader that met a corrupt length begins again with what comes next. */
  lemma LastByteIsKept(x: seq<byte>, b: byte)
    requires !Sound(x)
    ensures PushMessages([], [x, [b]]) != ReadAll(x + [b])
  {
    hide ReadAll, Sound;
    UnsoundDrops(x);
    if Sound(x + [b]) { SoundPrefix(x, [b]); }
    UnsoundDrops(x + [b]);
    var last: seq<byte> := [b];
    assert [x, last][1..] == [last];
    ConcatEmpty(x);
    OnePush(last);
    OneByteIsKept(b);
    assert PushMessages([], [x, last]).buffer == PushMessages([], [last]).buffer;
  }

  lemma OneByteIsKept(b: byte)
    ensures ReadAll([b]) == Read([], [b])
  {}

  lemma {:induction false} UnsoundDrops(x: seq<byte>)
    requires !Sound(x)
    ensures ReadAll(x).buffer == []
    decreases |x|
  {
    if Total(x) >= HEADER {
      UnsoundDrops(x[Total(x)..]);
    }
  }

  lemma {:induction false} CutsToTheLast(buffer: seq<byte>, chunks: seq<seq<byte>>)
    requires Partial(buffer) && SoundToTheLast(buffer + Flatten(chunks))
    ensures PushMessages(buffer, chunks) == ReadAll(buffer + Flatten(chunks))
    decreases |chunks|
  {
    hide Total, Partial, ReadAll, Sound;
    if chunks == [] {
      ConcatEmpty(buffer);
      PartialStays(buffer);
    } else {
      var x, y := buffer + chunks[0], Flatten(chunks[1..]);
      ConcatAssociative(buffer, chunks[0], y);
      LeavesPartial(x);
      var left := ReadAll(x).buffer;
      if y == [] {
        ConcatEmpty(x);
        ConcatEmpty(left);
        ConcatEmpty(ReadAll(x).out);
        PartialStays(left);
        if left != [] { PrefixOfPartial(left); }
      } else {
        var k := |y| - 1;
        assert (x + y)[..|x + y| - 1] == x + y[..k];
        SoundPrefix(x, y[..k]);
        SoundRest(x, y[..k]);
        ReadInTwo(x, y);
        assert (left + y)[..|left + y| - 1] == left + y[..k];
      }
      CutsToTheLast(left, chunks[1..]);
    }
  }

  lemma PartialStays(buffer: seq<byte>)
    requires Partial(buffer)
    ensures ReadAll(buffer) == Read([], buffer)
  {}

  lemma PrefixOfPartial(buffer: seq<byte>)
    requires Partial(buffer) && buffer != []
    ensures Sound(buffer[..|buffer| - 1])
  {
    assert |buffer| > HEADER ==> Total(buffer[..|buffer| - 1]) == Total(buffer);
  }

  /** An instance: pushed whole, a good message after a corrupt length is dropped
      too; pushed apart, it is read. */
  lemma CorruptLengthMakesChunkingMatter(m: Message)
    requires |m.body| <= MAX_BODY
    ensures PushMessages([], [[0, 0, 0, 0], Encoded(m)]).out == [m]
    ensures PushMessages([], [[0, 0, 0, 0] + Encoded(m)]).out == []
  {
    hide ReadAll, Encoded;
    var bad: seq<byte> := [0, 0, 0, 0];
    var good := Encoded(m);
    ZeroLengthDrops(bad);
    ZeroLengthDrops(bad + good);
    EncodedReads(m, []);
    ConcatEmpty(good);
    NothingToRead();
    TwoPushes(bad, good);
    OnePush(bad + good);
  }

  lemma NothingToRead()
    ensures ReadAll([]) == Read([], [])
  {}

  lemma ZeroLengthDrops(x: seq<byte>)
    requires |x| >= HEADER && x[0] == 0 && x[1] == 0
    ensures ReadAll(x) == Read([], [])
  {}

  lemma OnePush(x: seq<byte>)
    ensures PushMessages([], [x]) == ReadAll(x)
  {
    var none: seq<seq<byte>> := [];
    assert [x][1..] == none;
    ConcatEmpty(x);
    ConcatEmpty(ReadAll(x).out);
  }

  lemma TwoPushes(x: seq<byte>, y: seq<byte>)
    requires ReadAll(x) == Read([], [])
    ensures PushMessages([], [x, y]) == ReadAll(y)
  {
    OnePush(y);
    assert [x, y][1..] == [y];
    ConcatEmpty(x);
    ConcatEmpty(ReadAll(y).out);
  }

  // ---- Round trip ----

  lemma EncodedReads(m: Message, rest: seq<byte>)
    requires |m.body| <= MAX_BODY
    ensures var r := ReadAll(rest);
            ReadAll(Encoded(m) + rest) == Read([m] + r.out, r.buffer)
    ensures Sound(rest) ==> Sound(Encoded(m) + rest)
  {
    var all := Encoded(m) + rest;
    var t := HEADER + |m.body|;
    assert all[0] == t % 256 && all[1] == t / 256;
    assert Total(all) == t;
    assert all[HEADER..t] == m.body;
    assert all[t..] == rest;
  }

  predicate Fits(ms: seq<Message>) {
    forall i :: 0 <= i < |ms| ==> |ms[i].body| <= MAX_BODY
  }

  lemma {:induction false} MessagesRoundTrip(ms: seq<Message>, rest: seq<byte>)
    requires Fits(ms) && Partial(rest)
    ensures ReadAll(EncodedAll(ms) + rest) == Read(ms, rest)
    ensures Sound(EncodedAll(ms) + rest)
    decreases |ms|
  {
    if ms == [] {
      ConcatEmpty(rest);
    } else {
      hide Encoded, Partial, Total, Sound;
      MessagesRoundTrip(ms[1..], rest);
      EncodedReads(ms[0], EncodedAll(ms[1..]) + rest);
      ConcatAssociative(Encoded(ms[0]), EncodedAll(ms[1..]), rest);
      SplitAt(ms, 1);
      assert ms[..1] == [ms[0]];
    }
  }

  /** One message comes back exactly when its body fits the 16-bit length. */
  lemma MessageComesBackIffItFits(m: Message)
    ensures ReadAll(Encoded(m)) == Read([m], []) <==> |m.body| <= MAX_BODY
  {
    hide Encoded;
    if |m.body| <= MAX_BODY {
      EncodedReads(m, []);
      ConcatEmpty(Encoded(m));
      NothingToRead();
    }
    FirstBodyFits(Encoded(m));
  }

  lemma FirstBodyFits(x: seq<byte>)
    ensures ReadAll(x).out != [] ==> |ReadAll(x).out[0].body| <= MAX_BODY
  {}

  /** A prefix of a stream of messages reads as a prefix of the messages. */
  lemma {:induction false} PrefixReadsPrefix(x: seq<byte>, ms: seq<Message>)
    requires Fits(ms) && x <= EncodedAll(ms)
    ensures ReadAll(x).out <= ms && Sound(x)
    decreases |ms|
  {
    var whole := EncodedAll(ms);
    MessagesRoundTrip(ms, []);
    ConcatEmpty(whole);
    var y := whole[|x|..];
    SplitAt(whole, |x|);
    assert whole[..|x|] == x;
    hide Total, Sound, Partial, Encoded;
    SoundPrefix(x, y);
    ReadInTwo(x, y);
    assert ReadAll(x).out <= ReadAll(x).out + ReadAll(ReadAll(x).buffer + y).out;
  }
}
