/** The frame codec: a two-state parser that takes one frame (a fixed-size
    header carrying `magic` and `length`, then `length` body bytes) out of a
    staging buffer per call.

    The header layout, the expected magic and the JSON body decoder are not
    part of this model: they are the parameters collected in `Wire`. */
module BusCodec {
  import opened Basics
  import opened NetBuffer
  import opened BusMsg

  /** `state_`: `kHeader` or `kBody`. */
  datatype Phase = AwaitHeader | AwaitBody

  /** `Result`: `kContinue`, `kGood` or `kBad`. */
  datatype ParseResult = Continue | Good | Bad

  /** The decoded frame header, `header_`. */
  datatype FrameHeader = FrameHeader(magic: nat, length: nat)

  /** The collaborators the codec is built on: `sizeof(header_)`, `kMsgMagic`,
      the `memcpy` of header bytes into `header_`, and `JsonPacker::Unpack`
      (`None` when it reports an error). */
  datatype Wire = Wire(
    headerSize: nat,
    magic: nat,
    readHeader: seq<char> -> FrameHeader,
    unpack: seq<char> -> Option<MsgFields>)

  /** What one call to `Parse` does to the codec and the buffer: the result,
      the new state and header, how many readable bytes it consumed, and the
      message it decoded, if any. */
  datatype Outcome = Outcome(
    result: ParseResult,
    phase: Phase,
    header: FrameHeader,
    consumed: nat,
    decoded: Option<MsgFields>)

  /** The body phase over `input`, after `already` bytes were consumed by the
      header phase of the same call. */
  function BodyStep(w: Wire, h: FrameHeader, input: seq<char>, already: nat): (o: Outcome)
    ensures o.consumed <= already + |input|
    ensures o.result == Continue ==> o.phase == AwaitBody && o.consumed == already
    ensures o.result != Continue ==> o.phase == AwaitHeader && o.consumed == already + h.length
    ensures o.result == Good <==> o.decoded.Some?
  {
    if |input| < h.length then
      Outcome(Continue, AwaitBody, h, already, None)
    else
      var decoded := w.unpack(input[..h.length]);
      Outcome(if decoded.Some? then Good else Bad, AwaitHeader, h, already + h.length, decoded)
  }

  /** One call to `BusContext::Parse` on the readable bytes `input`. */
  function Step(w: Wire, phase: Phase, header: FrameHeader, input: seq<char>): (o: Outcome)
    ensures o.consumed <= |input|
    ensures o.result == Good <==> o.decoded.Some?
  {
    match phase
    case AwaitHeader =>
      if |input| < w.headerSize then
        Outcome(Continue, AwaitHeader, header, 0, None)
      else
        var h := w.readHeader(input[..w.headerSize]);
        if h.magic != w.magic then Outcome(Bad, AwaitBody, h, w.headerSize, None)
        else BodyStep(w, h, input[w.headerSize..], w.headerSize)
    case AwaitBody =>
      BodyStep(w, header, input, 0)
  }

  /** The header bytes `hb` and the body bytes `body` form a frame that decodes
      to `m`. */
  ghost predicate WellFormed(w: Wire, hb: seq<char>, body: seq<char>, m: MsgFields)
  {
    && |hb| == w.headerSize
    && w.readHeader(hb) == FrameHeader(w.magic, |body|)
    && w.unpack(body) == Some(m)
  }

  class BusContext {
    const wire: Wire
    var phase: Phase
    var header: FrameHeader

    /** `BusContext()`: waits for a header. */
    constructor (wire: Wire)
      ensures this.wire == wire && phase == AwaitHeader
    {
      this.wire := wire;
      phase := AwaitHeader;
      header := FrameHeader(0, 0);
    }

    /** `Parse(buf, msg)`: consumes what `Step` says from the head of `buf`,
        moves to the state `Step` says, and stores a decoded message in `msg`. */
    method Parse(buf: Buffer, msg: Msg) returns (r: ParseResult)
      requires buf.Valid()
      modifies this, buf, msg
      ensures buf.Valid() && buf.data == old(buf.data)
      ensures var o := Step(wire, old(phase), old(header), old(buf.ToString()));
              && r == o.result && phase == o.phase && header == o.header
              && buf.ToString() == old(buf.ToString())[o.consumed..]
              && (o.decoded.Some? ==> msg.Fields() == o.decoded.value)
              && (o.decoded.None? ==> unchanged(msg))
    {
      if phase == AwaitHeader {
        if buf.ReadableBytes() < wire.headerSize {
          return Continue;
        }
        header := wire.readHeader(buf.ToString()[..wire.headerSize]);
        buf.Retrive(wire.headerSize);
        phase := AwaitBody;
        if header.magic != wire.magic {
          return Bad;
        }
      }
      // state_ is kBody here on every path
      if buf.ReadableBytes() < header.length {
        return Continue;
      }
      var body := buf.ToString()[..header.length];
      buf.Retrive(header.length);
      phase := AwaitHeader;
      var decoded := wire.unpack(body);
      if decoded.None? {
        return Bad;
      }
      msg.id, msg.methodName, msg.values := decoded.value.id, decoded.value.methodName, decoded.value.values;
      return Good;
    }
  }

  /** Fewer readable bytes than a header: nothing is consumed and nothing changes. */
  lemma ShortHeaderWaits(w: Wire, header: FrameHeader, input: seq<char>)
    requires |input| < w.headerSize
    ensures Step(w, AwaitHeader, header, input) == Outcome(Continue, AwaitHeader, header, 0, None)
  {
  }

  /** A wrong magic is reported after the header was consumed and the state
      moved to `AwaitBody`. */
  lemma BadMagicConsumesHeader(w: Wire, header: FrameHeader, input: seq<char>)
    requires |input| >= w.headerSize && w.readHeader(input[..w.headerSize]).magic != w.magic
    ensures Step(w, AwaitHeader, header, input)
            == Outcome(Bad, AwaitBody, w.readHeader(input[..w.headerSize]), w.headerSize, None)
  {
  }

  /** Fewer readable bytes than the body: nothing is consumed and nothing changes. */
  lemma ShortBodyWaits(w: Wire, header: FrameHeader, input: seq<char>)
    requires |input| < header.length
    ensures Step(w, AwaitBody, header, input) == Outcome(Continue, AwaitBody, header, 0, None)
  {
  }

  /** A complete body is consumed and the state returns to `AwaitHeader`,
      whether or not it decodes; the result says which. */
  lemma BodyAlwaysConsumed(w: Wire, header: FrameHeader, input: seq<char>)
    requires |input| >= header.length
    ensures var o := Step(w, AwaitBody, header, input);
            && o.phase == AwaitHeader && o.consumed == header.length
            && o.decoded == w.unpack(input[..header.length])
            && (o.result == Good <==> o.decoded.Some?)
            && (o.result == Bad <==> o.decoded.None?)
  {
  }

  /** A whole frame followed by anything is parsed in one call: both phases
      run, exactly the frame is consumed, and its message is produced. */
  lemma {:induction false} WholeFrameInOneCall(w: Wire, hb: seq<char>, body: seq<char>, m: MsgFields,
                                               header: FrameHeader, rest: seq<char>)
    requires WellFormed(w, hb, body, m)
    ensures Step(w, AwaitHeader, header, hb + body + rest)
            == Outcome(Good, AwaitHeader, w.readHeader(hb), |hb| + |body|, Some(m))
  {
    var input := hb + body + rest;
    assert input[..w.headerSize] == hb;
    assert input[w.headerSize..][..|body|] == body;
  }

  /** What a sequence of successive `Append(chunk)`/`Parse` pairs yields: the
      chunks are appended one at a time and parsed once each, stopping at the
      first result other than `Continue`. `pending` is the buffer's readable
      bytes. */
  datatype FeedState = FeedState(
    result: ParseResult,
    phase: Phase,
    header: FrameHeader,
    pending: seq<char>,
    decoded: Option<MsgFields>)

  function Feed(w: Wire, phase: Phase, header: FrameHeader, pending: seq<char>,
                chunks: seq<seq<char>>): FeedState
    decreases |chunks|
  {
    if chunks == [] then FeedState(Continue, phase, header, pending, None)
    else
      var input := pending + chunks[0];
      var o := Step(w, phase, header, input);
      if o.result == Continue then Feed(w, o.phase, o.header, input[o.consumed..], chunks[1..])
      else FeedState(o.result, o.phase, o.header, input[o.consumed..] + Concat(chunks[1..]), o.decoded)
  }

  /** The state of the codec and buffer after the first `k` bytes of a
      well-formed frame have been fed, before the frame is complete. */
  ghost predicate PartFed(w: Wire, hb: seq<char>, body: seq<char>, k: nat,
                          phase: Phase, header: FrameHeader, pending: seq<char>)
    requires k <= |hb + body|
  {
    if k < |hb| then phase == AwaitHeader && pending == (hb + body)[..k]
    else phase == AwaitBody && header == w.readHeader(hb) && pending == (hb + body)[|hb|..k]
  }

  lemma {:induction false} FeedRestOfFrame(w: Wire, hb: seq<char>, body: seq<char>, m: MsgFields, k: nat,
                                           phase: Phase, header: FrameHeader, pending: seq<char>,
                                           chunks: seq<seq<char>>)
    requires WellFormed(w, hb, body, m) && k < |hb + body|
    requires PartFed(w, hb, body, k, phase, header, pending)
    requires Concat(chunks) == (hb + body)[k..]
    ensures Feed(w, phase, header, pending, chunks) == FeedState(Good, AwaitHeader, w.readHeader(hb), [], Some(m))
    decreases |chunks|
  {
    var f := hb + body;
    var h := w.readHeader(hb);
    assert chunks != [];
    var input := pending + chunks[0];
    var k' := k + |chunks[0]|;
    assert f[k..] == chunks[0] + Concat(chunks[1..]);
    assert k' <= |f|;
    assert f[k..][..|chunks[0]|] == chunks[0];
    assert chunks[0] == f[k..k'];
    assert Concat(chunks[1..]) == f[k'..];
    var o := Step(w, phase, header, input);
    if k < |hb| {
      assert input == f[..k'];
      if k' < |hb| {
        assert o == Outcome(Continue, AwaitHeader, header, 0, None);
        FeedRestOfFrame(w, hb, body, m, k', o.phase, o.header, input[o.consumed..], chunks[1..]);
      } else {
        assert input[..w.headerSize] == hb;
        assert input[w.headerSize..] == f[|hb|..k'];
        if k' < |f| {
          assert o == Outcome(Continue, AwaitBody, h, w.headerSize, None);
          FeedRestOfFrame(w, hb, body, m, k', o.phase, o.header, input[o.consumed..], chunks[1..]);
        } else {
          assert input[w.headerSize..] == body;
          assert input[w.headerSize..][..|body|] == body;
          assert o == Outcome(Good, AwaitHeader, h, |f|, Some(m));
        }
      }
    } else {
      assert input == f[|hb|..k'];
      if k' < |f| {
        assert o == Outcome(Continue, AwaitBody, h, 0, None);
        FeedRestOfFrame(w, hb, body, m, k', o.phase, o.header, input[o.consumed..], chunks[1..]);
      } else {
        assert input == body;
        assert input[..|body|] == body;
        assert o == Outcome(Good, AwaitHeader, h, |body|, Some(m));
      }
    }
  }

  /** However a well-formed frame is cut into chunks (one byte at a time, or
      all at once), feeding the chunks one by one ends with the message of the
      frame, the codec back in `AwaitHeader`, and an empty buffer. */
  lemma ChunkedFrameDecodes(w: Wire, hb: seq<char>, body: seq<char>, m: MsgFields,
                            header: FrameHeader, chunks: seq<seq<char>>)
    requires w.headerSize > 0 && WellFormed(w, hb, body, m)
    requires Concat(chunks) == hb + body
    ensures Feed(w, AwaitHeader, header, [], chunks) == FeedState(Good, AwaitHeader, w.readHeader(hb), [], Some(m))
    ensures Feed(w, AwaitHeader, header, [], chunks) == Feed(w, AwaitHeader, header, [], [hb + body])
  {
    assert (hb + body)[..0] == [];
    FeedRestOfFrame(w, hb, body, m, 0, AwaitHeader, header, [], chunks);
    assert Concat([hb + body]) == hb + body + [];
    FeedRestOfFrame(w, hb, body, m, 0, AwaitHeader, header, [], [hb + body]);
  }

  /** However a frame with a wrong magic is cut into chunks, feeding them never
      produces a message: the result is `Bad` once the header is complete and
      `Continue` before. */
  lemma {:induction false} CorruptMagicNeverDecodes(w: Wire, header: FrameHeader, pending: seq<char>,
                                                    chunks: seq<seq<char>>)
    requires |pending| < w.headerSize
    requires |pending + Concat(chunks)| >= w.headerSize ==>
               w.readHeader((pending + Concat(chunks))[..w.headerSize]).magic != w.magic
    ensures var fs := Feed(w, AwaitHeader, header, pending, chunks);
            fs.result != Good && fs.decoded.None?
            && (fs.result == Bad <==> |pending + Concat(chunks)| >= w.headerSize)
    decreases |chunks|
  {
    if chunks != [] {
      var input := pending + chunks[0];
      assert pending + Concat(chunks) == input + Concat(chunks[1..]);
      if |input| < w.headerSize {
        CorruptMagicNeverDecodes(w, header, input, chunks[1..]);
      } else {
        assert input[..w.headerSize] == (pending + Concat(chunks))[..w.headerSize];
      }
    }
  }
}
