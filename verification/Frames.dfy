/**
 Frames in a stream of bytes: the length-prefixed frame, and the assembler that collects
 arriving bytes in one buffer and hands frames out of it, dropping the used front now and then.
 */
module Frames {
  import opened Bytes
  import opened Orders
  import opened Wire
  import opened Streams

  const FRAME_HEADER := 6
  const PROTOCOL_VERSION := 1

  datatype Frame = Frame(version: nat, kind: nat, payload: seq<Byte>)

  datatype ProtocolError = BodyTooLong(length: nat) | BodyTooShort(length: nat) | UnsupportedVersion(version: nat)

  /** What the front of the bytes is, when bodies may be up to `maxBody` long. */
  function ParseFrame(maxBody: nat, bytes: seq<Byte>): (r: Parsed<Frame, ProtocolError>)
    ensures r.Parsed? ==> FRAME_HEADER <= r.total <= |bytes|
    ensures r.NeedMore? ==> |bytes| < FRAME_HEADER || |bytes| < 4 + maxBody
  {
    if |bytes| < FRAME_HEADER then NeedMore
    else
      var length := NumberAt(bytes, 0, 4);
      if length > maxBody then Bad(BodyTooLong(length))
      else if length < 2 then Bad(BodyTooShort(length))
      else if |bytes| < 4 + length then NeedMore
      else
        var version := NumberAt(bytes, 4, 1);
        if version != PROTOCOL_VERSION then Bad(UnsupportedVersion(version))
        else Parsed(Frame(version, NumberAt(bytes, 5, 1), bytes[FRAME_HEADER..4 + length]), 4 + length)
  }

  lemma NumberInFront(bytes: seq<Byte>, more: seq<Byte>, pos: nat, n: nat)
    requires pos + n <= |bytes|
    ensures NumberAt(bytes + more, pos, n) == NumberAt(bytes, pos, n)
  {
    assert (bytes + more)[pos..pos + n] == bytes[pos..pos + n];
  }

  /** Once the front is judged, more bytes do not change the judgement. */
  lemma FrameSettled(maxBody: nat, bytes: seq<Byte>, more: seq<Byte>)
    requires !ParseFrame(maxBody, bytes).NeedMore?
    ensures ParseFrame(maxBody, bytes + more) == ParseFrame(maxBody, bytes)
  {
    NumberInFront(bytes, more, 0, 4);
    NumberInFront(bytes, more, 4, 1);
    NumberInFront(bytes, more, 5, 1);
    var length := NumberAt(bytes, 0, 4);
    if 2 <= length && 4 + length <= |bytes| {
      assert (bytes + more)[FRAME_HEADER..4 + length] == bytes[FRAME_HEADER..4 + length];
    }
  }

  function FrameParser(maxBody: nat): Parser<Frame, ProtocolError, Byte> {
    Parser(bytes => ParseFrame(maxBody, bytes))
  }

  ghost predicate ParsesFrame(p: Parser<Frame, ProtocolError, Byte>, maxBody: nat, bytes: seq<Byte>) {
    p.parse(bytes) == ParseFrame(maxBody, bytes)
  }

  /** `p` takes frames off a stream; a parameter where a proof need not look inside a frame. */
  ghost predicate ParsesFrames(p: Parser<Frame, ProtocolError, Byte>, maxBody: nat) {
    Advances(p) && Settled(p) && forall bytes :: ParsesFrame(p, maxBody, bytes)
  }

  /** The laws of streams hold of frames, so arrivals may be cut anywhere. */
  lemma FramesLawful(maxBody: nat)
    ensures ParsesFrames(FrameParser(maxBody), maxBody)
  {
    var p := FrameParser(maxBody);
    forall bytes: seq<Byte> ensures ParsesFrame(p, maxBody, bytes) {
    }
    assert Advances(p) by {
      forall bytes: seq<Byte> ensures p.parse(bytes).Parsed? ==> 0 < p.parse(bytes).total <= |bytes| {
        assert ParsesFrame(p, maxBody, bytes);
      }
    }
    forall bytes: seq<Byte>, more: seq<Byte> | !p.parse(bytes).NeedMore?
      ensures p.parse(bytes + more) == p.parse(bytes)
    {
      FrameSettled(maxBody, bytes, more);
    }
  }

  class FrameAssembler {
    const maxBody: nat
    var buffer: seq<Byte>
    var readPos: nat

    ghost predicate Valid()
      reads this
    {
      readPos <= |buffer|
    }

    /** The bytes that have not been handed out. */
    function Pending(): seq<Byte>
      requires Valid()
      reads this
    {
      buffer[readPos..]
    }

    constructor (maxBody: nat)
      ensures Valid() && Pending() == [] && this.maxBody == maxBody
    {
      this.maxBody := maxBody;
      buffer := [];
      readPos := 0;
    }

    method Append(bytes: seq<Byte>)
      requires Valid()
      modifies this
      ensures Valid() && Pending() == old(Pending()) + bytes
    {
      buffer := buffer + bytes;
    }

    /** Drops the used front once it is at least half of the buffer. */
    method Compact()
      requires Valid()
      modifies this
      ensures Valid() && Pending() == old(Pending())
      ensures readPos == 0 || readPos * 2 < |buffer|
    {
      if readPos == 0 {
        return;
      }
      if readPos * 2 < |buffer| {
        return;
      }
      buffer := buffer[readPos..];
      readPos := 0;
    }

    /** Hands out the next frame, says that none is whole yet, or throws and stays as it is. */
    method Next() returns (r: Parsed<Frame, ProtocolError>)
      requires Valid()
      modifies this
      ensures Valid() && r == ParseFrame(maxBody, old(Pending()))
      ensures Pending() == if r.Parsed? then old(Pending())[r.total..] else old(Pending())
      ensures r.NeedMore? && maxBody >= 2 ==> |buffer| <= 2 * (maxBody + 3)
    {
      Compact();
      if |buffer| - readPos < FRAME_HEADER {
        return NeedMore;
      }
      var view := Pending();
      var header := new Reader(view);
      var length := header.U32();
      if length.value > maxBody {
        return Bad(BodyTooLong(length.value));
      }
      if length.value < 2 {
        return Bad(BodyTooShort(length.value));
      }
      var total := 4 + length.value;
      if |view| < total {
        return NeedMore;
      }
      var version := header.U8();
      if version.value != PROTOCOL_VERSION {
        return Bad(UnsupportedVersion(version.value));
      }
      var kind := header.U8();
      r := Parsed(Frame(version.value, kind.value, view[FRAME_HEADER..FRAME_HEADER + (length.value - 2)]), total);
      readPos := readPos + total;
    }
  }

  /** The receiving loop: after each arrival, frames are taken until there is none or an error. */
  method Drain(assembler: FrameAssembler, ghost p: Parser<Frame, ProtocolError, Byte>)
    returns (frames: seq<Frame>, error: Option<ProtocolError>)
    requires assembler.Valid() && ParsesFrames(p, assembler.maxBody)
    modifies assembler
    ensures assembler.Valid()
    ensures Outcome(frames, assembler.Pending(), error) == ParseAll(p, old(assembler.Pending()))
  {
    frames, error := [], None;
    ghost var all := ParseAll(p, assembler.Pending());
    BehindNothing(all);
    while true
      invariant assembler.Valid()
      invariant ParseAll(p, assembler.Pending()).Behind(frames) == all
      decreases |assembler.Pending()|
    {
      assert ParsesFrame(p, assembler.maxBody, assembler.Pending());
      var next := assembler.Next();
      if next.NeedMore? {
        assert frames + [] == frames;
        return;
      }
      if next.Bad? {
        assert frames + [] == frames;
        error := Some(next.error);
        return;
      }
      BehindTwice(ParseAll(p, assembler.Pending()), frames, [next.frame]);
      frames := frames + [next.frame];
    }
  }
}
