/**
 The two Docker log demultiplexers (internal/dockerworker/engine.go): the batch decoder over a whole
 response and the streaming copy from a reader to a writer.
 */
module DockerLogs {

  import opened Text

  const MAX_FRAME: nat := 16 * 1024 * 1024

  /** At most the first `limit` bytes. */
  function Head(data: Bytes, limit: nat): (r: Bytes)
    ensures |data| <= limit ==> r == data
  {
    if |data| <= limit then data else data[..limit]
  }

  predicate Framed(data: Bytes) {
    |data| >= 8 && (data[0] == 1 || data[0] == 2) && data[1] == 0 && data[2] == 0 && data[3] == 0
  }

  /** The payload length in the 8-byte header that `data` starts with. */
  function FrameSize(data: Bytes): nat
    requires |data| >= 8
  {
    data[4] as int * 0x100_0000 + data[5] as int * 0x1_0000 + data[6] as int * 0x100 + data[7] as int
  }

  // ----- Batch -----

  function BatchFrames(data: Bytes): Bytes
    decreases |data|
  {
    if |data| < 8 || |data| < 8 + FrameSize(data) then []
    else data[8..8 + FrameSize(data)] + BatchFrames(data[8 + FrameSize(data)..])
  }

  function Batch(data: Bytes): Bytes {
    if Framed(data) then BatchFrames(data) else data
  }

  method Decode(input: Bytes) returns (output: Bytes)
    ensures output == Batch(input)
  {
    if |input| < 8 || (input[0] != 1 && input[0] != 2) || input[1] != 0 || input[2] != 0 || input[3] != 0 {
      return input;
    }
    output := [];
    var data := input;
    hide FrameSize, BatchFrames, Framed;
    while |data| >= 8
      invariant output + BatchFrames(data) == BatchFrames(input)
      decreases |data|
    {
      BatchOneFrame(data);
      var size := FrameSize(data);
      if |data| < 8 + size {
        break;
      }
      ghost var before := output;
      var payload := data[8..8 + size];
      output := output + payload;
      data := data[8 + size..];
      Regrouped(before, payload, BatchFrames(data));
    }
    BatchOneFrame(data);
  }

  lemma Regrouped(a: Bytes, b: Bytes, c: Bytes)
    ensures a + b + c == a + (b + c)
  {
  }

  lemma BatchOneFrame(data: Bytes)
    ensures BatchFrames(data) ==
            if |data| < 8 || |data| < 8 + FrameSize(data) then []
            else data[8..8 + FrameSize(data)] + BatchFrames(data[8 + FrameSize(data)..])
  {
  }

  /** What the worker reads of a log response before decoding it. */
  const LOG_LIMIT: nat := 2 * 1024 * 1024

  /** `ContainerLogs`: decodes no more than the first 2 MiB of the response. */
  method ContainerLogs(response: Reader) returns (output: Bytes)
    modifies response
    ensures output == Batch(Head(old(response.rest), LOG_LIMIT))
  {
    var data := response.Read(LOG_LIMIT);
    output := Decode(data);
  }

  // ----- Streaming -----

  datatype Copied = Copied(output: Bytes, ok: bool)

  /** The copy loop, entered with a header just read. */
  function StreamFrames(data: Bytes): Copied
    requires |data| >= 8
    decreases |data|
  {
    var size := FrameSize(data);
    if size > MAX_FRAME then Copied([], false)
    else if |data| < 8 + size then Copied(data[8..], true)
    else
      var payload, rest := data[8..8 + size], data[8 + size..];
      if |rest| < 8 then Copied(payload, true)
      else Copied(payload + StreamFrames(rest).output, StreamFrames(rest).ok)
  }

  function Stream(data: Bytes): Copied {
    if Framed(data) then StreamFrames(data) else Copied(data, true)
  }

  class Reader {
    var rest: Bytes

    constructor (data: Bytes)
      ensures rest == data
    {
      rest := data;
    }

    /** Reads up to `n` bytes; fewer only at the end of the input. */
    method Read(n: nat) returns (data: Bytes)
      modifies this
      ensures data == Head(old(rest), n) && |data| == (if n <= |old(rest)| then n else |old(rest)|)
      ensures data <= old(rest) && rest == old(rest)[|data|..]
    {
      var k := if n <= |rest| then n else |rest|;
      data := rest[..k];
      rest := rest[k..];
    }
  }

  /** A writer that takes `room` more bytes and fails from then on. */
  class Writer {
    var written: Bytes
    var room: nat

    constructor (room: nat)
      ensures written == [] && this.room == room
    {
      this.written, this.room := [], room;
    }

    method Write(data: Bytes) returns (ok: bool)
      modifies this
      ensures written == old(written) + Head(data, old(room))
      ensures ok == (|data| <= old(room)) && (ok ==> room == old(room) - |data|)
    {
      ok := |data| <= room;
      written := written + Head(data, room);
      room := if ok then room - |data| else 0;
    }
  }

  /** What the copy loop does after the first payload, with `body` still unread when it starts. */
  function AfterPayload(size: nat, body: Bytes): Copied {
    if |body| < size + 8 then Copied([], true) else StreamFrames(body[size..])
  }

  /** One turn of the copy loop. */
  lemma StreamOneFrame(header: Bytes, body: Bytes)
    requires |header| == 8
    ensures
      var size, all := FrameSize(header), StreamFrames(header + body);
      if size > MAX_FRAME then all == Copied([], false)
      else all.output == Head(body, size) + AfterPayload(size, body).output && all.ok == AfterPayload(size, body).ok
  {
    var data, size := header + body, FrameSize(header);
    SizeFromHeader(header, body);
    assert data[8..] == body;
    hide FrameSize;
    if |body| >= size {
      assert data[8..8 + size] == body[..size] && data[8 + size..] == body[size..];
    }
  }

  lemma HeadConcat(first: Bytes, more: Bytes, room: nat)
    ensures |first| <= room ==> Head(first + more, room) == first + Head(more, room - |first|)
    ensures |first| > room ==> Head(first + more, room) == Head(first, room)
  {
  }

  /** What was written and what `rest` still has to say make up the beginning of `all` that fits. */
  ghost predicate OnTrack(before: Bytes, room: nat, all: Copied, written: Bytes, free: nat, rest: Copied) {
    && before + Head(all.output, room) == written + Head(rest.output, free)
    && all.ok == rest.ok && (|all.output| <= room <==> |rest.output| <= free)
  }

  lemma PayloadWritten(before: Bytes, room: nat, all: Copied, written: Bytes, free: nat, rest: Copied,
                       payload: Bytes, tail: Copied)
    requires OnTrack(before, room, all, written, free, rest)
    requires rest.output == payload + tail.output && rest.ok == tail.ok
    ensures |payload| <= free ==> OnTrack(before, room, all, written + payload, free - |payload|, tail)
    ensures |payload| > free ==> before + Head(all.output, room) == written + Head(payload, free) && |all.output| > room
  {
    hide Head;
    HeadConcat(payload, tail.output, free);
  }

  lemma AllWritten(before: Bytes, room: nat, all: Copied, written: Bytes, free: nat, rest: Copied)
    requires OnTrack(before, room, all, written, free, rest) && rest.output == []
    ensures before + Head(all.output, room) == written && |all.output| <= room
  {
  }

  /** The copy loop, with the first frame's header already read. */
  method CopyFrames(reader: Reader, writer: Writer, first: Bytes) returns (ok: bool)
    requires |first| == 8
    modifies reader, writer
    ensures
      var all := StreamFrames(first + old(reader.rest));
      && writer.written == old(writer.written) + Head(all.output, old(writer.room))
      && ok == (all.ok && |all.output| <= old(writer.room))
  {
    hide StreamFrames, FrameSize, Head, OnTrack;
    ghost var all := StreamFrames(first + reader.rest);
    ghost var before, room := writer.written, writer.room;
    var header := first;
    StartsOnTrack(before, room, all);
    while true
      invariant |header| == 8
      invariant OnTrack(before, room, all, writer.written, writer.room, StreamFrames(header + reader.rest))
      decreases |reader.rest|
    {
      ghost var body, written, free := reader.rest, writer.written, writer.room;
      ghost var rest := StreamFrames(header + body);
      StreamOneFrame(header, body);
      SameEnd(before, room, all, written, free, rest);
      var size := FrameSize(header);
      if size > MAX_FRAME {
        AllWritten(before, room, all, written, free, rest);
        return false;
      }
      var payload := reader.Read(size);
      ghost var tail := AfterPayload(size, body);
      PayloadWritten(before, room, all, written, free, rest, payload, tail);
      var accepted := writer.Write(payload);
      if !accepted {
        return false;
      }
      if |payload| < size {
        AllWritten(before, room, all, writer.written, writer.room, tail);
        return true;
      }
      var next := reader.Read(8);
      if |next| < 8 {
        AllWritten(before, room, all, writer.written, writer.room, tail);
        return true;
      }
      assert body[size..] == next + reader.rest;
      header := next;
    }
  }

  lemma StartsOnTrack(before: Bytes, room: nat, all: Copied)
    ensures OnTrack(before, room, all, before, room, all)
  {
  }

  lemma SameEnd(before: Bytes, room: nat, all: Copied, written: Bytes, free: nat, rest: Copied)
    requires OnTrack(before, room, all, written, free, rest)
    ensures all.ok == rest.ok
  {
  }

  /** A writer that fails gets exactly the beginning of the output, and the failure is reported. */
  method Copy(reader: Reader, writer: Writer) returns (ok: bool)
    modifies reader, writer
    ensures
      var all := Stream(old(reader.rest));
      && writer.written == old(writer.written) + Head(all.output, old(writer.room))
      && ok == (all.ok && |all.output| <= old(writer.room))
  {
    hide StreamFrames, Head;
    ghost var input, room := reader.rest, writer.room;
    var header := reader.Read(8);
    assert input == header + reader.rest;
    if |header| == 8 && (header[0] == 1 || header[0] == 2) && header[1] == 0 && header[2] == 0 && header[3] == 0 {
      ok := CopyFrames(reader, writer, header);
      return;
    }
    HeadConcat(header, reader.rest, room);
    ok := writer.Write(header);
    if !ok {
      return;
    }
    var tail := reader.Read(|reader.rest|);
    ok := writer.Write(tail);
  }

  // ----- How the two relate -----

  /** The batch walk meets a complete frame larger than the streaming limit. */
  predicate Oversized(data: Bytes)
    decreases |data|
  {
    && |data| >= 8 && |data| >= 8 + FrameSize(data)
    && (FrameSize(data) > MAX_FRAME || Oversized(data[8 + FrameSize(data)..]))
  }

  /** What is there of a last payload that is cut short. */
  function CutPayload(data: Bytes): Bytes
    decreases |data|
  {
    if |data| < 8 then []
    else if |data| < 8 + FrameSize(data) then if FrameSize(data) <= MAX_FRAME then data[8..] else []
    else CutPayload(data[8 + FrameSize(data)..])
  }

  lemma {:induction false} StreamIsBatchPlusCut(data: Bytes)
    requires |data| >= 8 && !Oversized(data)
    ensures StreamFrames(data).output == BatchFrames(data) + CutPayload(data)
    decreases |data|
  {
    var size := FrameSize(data);
    if |data| >= 8 + size {
      var rest := data[8 + size..];
      if |rest| >= 8 {
        StreamIsBatchPlusCut(rest);
      }
    }
  }

  lemma {:induction false} OversizedLosesOutput(data: Bytes)
    requires |data| >= 8 && Oversized(data)
    ensures |StreamFrames(data).output| < |BatchFrames(data)| && !StreamFrames(data).ok
    decreases |data|
  {
    var size := FrameSize(data);
    if size <= MAX_FRAME {
      OversizedLosesOutput(data[8 + size..]);
    }
  }

  /**
   The batch output is a prefix of the streaming output, which adds exactly what is there of a cut
   last payload, unless the batch walk meets a complete frame over 16 MiB; then it never is.
   */
  lemma BatchVersusStream(data: Bytes)
    ensures Batch(data) <= Stream(data).output <==> !(Framed(data) && Oversized(data))
    ensures !(Framed(data) && Oversized(data)) ==>
              Stream(data).output == Batch(data) + if Framed(data) then CutPayload(data) else []
  {
    if Framed(data) {
      if Oversized(data) {
        OversizedLosesOutput(data);
      } else {
        StreamIsBatchPlusCut(data);
      }
    }
  }

  lemma {:induction false} ShortIsNotOversized(data: Bytes)
    requires |data| <= MAX_FRAME
    ensures !Oversized(data)
    decreases |data|
  {
    if |data| >= 8 && |data| >= 8 + FrameSize(data) {
      ShortIsNotOversized(data[8 + FrameSize(data)..]);
    }
  }

  /** For every input of at most 16 MiB the batch output is a prefix, and the whole when nothing is cut. */
  lemma ShortInputsAgree(data: Bytes)
    requires |data| <= MAX_FRAME
    ensures Batch(data) <= Stream(data).output
    ensures CutPayload(data) == [] ==> Batch(data) == Stream(data).output
  {
    ShortIsNotOversized(data);
    BatchVersusStream(data);
  }

  /**
   What is shown of a log is a prefix of what is captured: decoding no more than the first `limit`
   bytes of any response, however long, yields a prefix of what streaming all of it writes.
   */
  lemma ShownIsPrefixOfCaptured(data: Bytes, limit: nat)
    requires 8 <= limit <= MAX_FRAME
    ensures Batch(Head(data, limit)) <= Stream(data).output
  {
    if |data| <= limit {
      ShortInputsAgree(data);
    } else if Framed(data) {
      HeadOfFrames(data, limit);
    }
  }

  lemma {:induction false} HeadOfFrames(data: Bytes, limit: nat)
    requires |data| >= 8 && limit <= MAX_FRAME
    ensures BatchFrames(Head(data, limit)) <= StreamFrames(data).output
    decreases |data|
  {
    var head := Head(data, limit);
    BatchOneFrame(head);
    hide BatchFrames;
    if |head| >= 8 {
      var size := FrameSize(data);
      assert FrameSize(head) == size;
      hide FrameSize;
      if |head| >= 8 + size {
        var rest := data[8 + size..];
        assert head[8..8 + size] == data[8..8 + size];
        assert head[8 + size..] == Head(rest, limit - 8 - size);
        hide Head;
        if |rest| >= 8 {
          HeadOfFrames(rest, limit - 8 - size);
        } else {
          ShortHead(rest, limit - 8 - size);
        }
      }
    }
  }

  lemma ShortHead(data: Bytes, limit: nat)
    requires |data| < 8
    ensures BatchFrames(Head(data, limit)) == []
  {
  }

  /** As functions they differ above 16 MiB: one frame of 16 MiB and a byte is decoded by the batch form only. */
  lemma LargeFrameDiffers(payload: Bytes)
    requires |payload| == MAX_FRAME + 1
    ensures Batch([1, 0, 0, 0, 1, 0, 0, 1] + payload) == payload
    ensures Stream([1, 0, 0, 0, 1, 0, 0, 1] + payload) == Copied([], false)
  {
    var header: Bytes := [1, 0, 0, 0, 1, 0, 0, 1];
    var data := header + payload;
    assert FrameSize(data) == MAX_FRAME + 1;
    assert data[8..8 + FrameSize(data)] == payload;
    assert data[8 + FrameSize(data)..] == [];
    assert BatchFrames(data) == payload + BatchFrames([]) == payload;
  }

  // ----- Both undo the framing -----

  datatype Frame = Frame(stderr: bool, payload: Bytes)

  function BigEndian(n: nat): Bytes
    requires n < 0x1_0000_0000
  {
    [n / 0x100_0000, n / 0x1_0000 % 0x100, n / 0x100 % 0x100, n % 0x100]
  }

  function Header(stderr: bool, size: nat): (h: Bytes)
    requires size <= MAX_FRAME
    ensures |h| == 8
  {
    [if stderr then 2 else 1, 0, 0, 0] + BigEndian(size)
  }

  function Encode(frames: seq<Frame>): Bytes
    requires forall f :: f in frames ==> |f.payload| <= MAX_FRAME
  {
    if frames == [] then []
    else
      var f := frames[0];
      Header(f.stderr, |f.payload|) + f.payload + Encode(frames[1..])
  }

  function Payloads(frames: seq<Frame>): Bytes {
    if frames == [] then [] else frames[0].payload + Payloads(frames[1..])
  }

  lemma HeaderSize(stderr: bool, n: nat)
    requires n <= MAX_FRAME
    ensures
      Framed(Header(stderr, n)) && FrameSize(Header(stderr, n)) == n
  {
    FourBytes(n);
  }

  /** A text that does not start with the header of a stdout or stderr frame comes out of both as it is. */
  lemma UnframedIsUnchanged(data: Bytes)
    requires |data| < 8 || data[0] !in {1, 2} || data[1] != 0 || data[2] != 0 || data[3] != 0
    ensures Batch(data) == data && Stream(data) == Copied(data, true)
  {
  }

  /** The header alone decides the framing and the size. */
  lemma SizeFromHeader(header: Bytes, rest: Bytes)
    requires |header| == 8
    ensures FrameSize(header + rest) == FrameSize(header) && (Framed(header + rest) <==> Framed(header))
  {
  }

  lemma ThreeParts(header: Bytes, payload: Bytes, rest: Bytes)
    requires |header| == 8
    ensures
      var data := header + payload + rest;
      && data == header + (payload + rest)
      && data[8..8 + |payload|] == payload && data[8 + |payload|..] == rest
  {
  }

  lemma EncodedFrame(frames: seq<Frame>)
    requires frames != [] && forall f :: f in frames ==> |f.payload| <= MAX_FRAME
    ensures
      var data, n := Encode(frames), |frames[0].payload|;
      && Framed(data) && FrameSize(data) == n && |data| >= 8 + n
      && data[8..8 + n] == frames[0].payload && data[8 + n..] == Encode(frames[1..])
  {
    hide Header, FrameSize, Framed;
    var f, rest := frames[0], Encode(frames[1..]);
    var header := Header(f.stderr, |f.payload|);
    HeaderSize(f.stderr, |f.payload|);
    SizeFromHeader(header, f.payload + rest);
    ThreeParts(header, f.payload, rest);
  }

  lemma {:induction false} DecodesFrames(frames: seq<Frame>)
    requires forall f :: f in frames ==> |f.payload| <= MAX_FRAME
    ensures BatchFrames(Encode(frames)) == Payloads(frames)
    ensures frames != [] ==> |Encode(frames)| >= 8 && StreamFrames(Encode(frames)) == Copied(Payloads(frames), true)
    decreases |frames|
  {
    if frames != [] {
      EncodedFrame(frames);
      DecodesFrames(frames[1..]);
      if |frames| > 1 {
        EncodedFrame(frames[1..]);
      }
    }
  }

  /** For every list of stdout and stderr frames, both recover exactly the concatenated payloads. */
  lemma DemultiplexingUndoesFraming(frames: seq<Frame>)
    requires forall f :: f in frames ==> |f.payload| <= MAX_FRAME
    ensures Batch(Encode(frames)) == Payloads(frames)
    ensures Stream(Encode(frames)) == Copied(Payloads(frames), true)
  {
    DecodesFrames(frames);
    if frames != [] {
      EncodedFrame(frames);
    }
  }
}
