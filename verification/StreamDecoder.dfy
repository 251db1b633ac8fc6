/** The incremental frame decoder: for every way of cutting a stream into chunks it returns the frames of the stream. */
module StreamDecoder {
  import opened Bytes
  import opened FrameCodec

  /** The frames of a whole stream, what is left, and whether what is left is malformed. */
  datatype Scan = Scan(frames: seq<Frame>, rest: seq<byte>, failed: bool)

  function ScanAll(stream: seq<byte>): (s: Scan)
    ensures s.failed ==> DecodeFrame(s.rest).Bad()
    ensures !s.failed ==> DecodeFrame(s.rest).NeedMoreData?
    ensures |s.rest| <= |stream|
    decreases |stream|
  {
    match DecodeFrame(stream)
    case Complete(f, n) => After([f], ScanAll(stream[n..]))
    case NeedMoreData(_) => Scan([], stream, false)
    case _ => Scan([], stream, true)
  }

  function After(frames: seq<Frame>, s: Scan): (r: Scan)
  {
    s.(frames := frames + s.frames)
  }

  lemma AfterAfter(a: seq<Frame>, b: seq<Frame>, s: Scan)
    ensures After(a, After(b, s)) == After(a + b, s)
  {
    assert a + (b + s.frames) == a + b + s.frames;
  }

  lemma AfterNothing(s: Scan)
    ensures After([], s) == s
  {
    assert [] + s.frames == s.frames;
  }

  /** Scanning can stop anywhere and go on from what is left. */
  lemma {:induction false} ScanResumes(a: seq<byte>, b: seq<byte>)
    ensures !ScanAll(a).failed ==> ScanAll(a + b) == After(ScanAll(a).frames, ScanAll(ScanAll(a).rest + b))
    ensures ScanAll(a).failed ==> ScanAll(a + b).failed && ScanAll(a + b).frames == ScanAll(a).frames
    decreases |a|
  {
    hide DecodeFrame;
    match DecodeFrame(a)
    case NeedMoreData(_) =>
      AfterNothing(ScanAll(a + b));
    case Complete(f, n) =>
      VerdictIsStable(a, b);
      ScanResumes(a[n..], b);
      assert (a + b)[n..] == a[n..] + b;
      var s := ScanAll(a[n..]);
      AfterAfter([f], s.frames, ScanAll(s.rest + b));
    case _ =>
      VerdictIsStable(a, b);
  }

  lemma UnfinishedScan(s: seq<byte>)
    ensures DecodeFrame(s).Complete? || DecodeFrame(s).Bad() || ScanAll(s) == Scan([], s, false)
  {
    hide DecodeFrame;
  }

  lemma CutAt(start: seq<byte>, bytes: seq<byte>, i: nat, j: nat)
    requires i <= j <= |bytes|
    ensures start + bytes[..i] + bytes[i..j] == start + bytes[..j]
    ensures start + bytes[..j] + bytes[j..] == start + bytes
  {
    assert bytes[..i] + bytes[i..j] == bytes[..j];
    assert bytes[..j] + bytes[j..] == bytes;
  }

  class FrameStreamDecoder {
    var buffer: seq<byte>
    var readOffset: nat

    ghost predicate Valid()
      reads this
    {
      readOffset <= |buffer| && |Unread()| <= MAX_FRAME && !DecodeFrame(Unread()).Complete?
    }

    ghost function Unread(): (u: seq<byte>)
      reads this
    {
      if readOffset <= |buffer| then buffer[readOffset..] else []
    }

    /** A decode error was met and not reset. */
    ghost predicate Broken()
      reads this
    {
      DecodeFrame(Unread()).Bad()
    }

    constructor ()
      ensures Valid() && Unread() == []
    {
      buffer := [];
      readOffset := 0;
    }

    method Reset()
      modifies this
      ensures Valid() && Unread() == [] && !Broken()
    {
      buffer := [];
      readOffset := 0;
    }

    method BufferedSize() returns (n: nat)
      requires Valid()
      ensures n == |Unread()|
    {
      n := |buffer| - readOffset;
    }

    /** The inner loop of `push`: decodes the complete frames at the front of the buffer. */
    method TakeFrames() returns (frames: seq<Frame>, ok: bool)
      requires readOffset <= |buffer|
      modifies this`readOffset
      ensures readOffset <= |buffer|
      ensures ScanAll(buffer[old(readOffset)..]) == Scan(frames, buffer[readOffset..], !ok)
    {
      frames := [];
      hide DecodeFrame;
      ghost var all := ScanAll(buffer[readOffset..]);
      AfterNothing(all);
      while readOffset < |buffer|
        invariant readOffset <= |buffer|
        invariant all == After(frames, ScanAll(buffer[readOffset..]))
      {
        var unread := buffer[readOffset..];
        var result := DecodeFrame(unread);
        if result.Complete? {
          assert buffer[readOffset + result.consumed..] == unread[result.consumed..];
          AfterAfter(frames, [result.frame], ScanAll(unread[result.consumed..]));
          frames := frames + [result.frame];
          readOffset := readOffset + result.consumed;
          continue;
        }
        assert frames + [] == frames;
        ok := result.NeedMoreData?;
        return;
      }
      assert buffer[readOffset..] == [];
      assert frames + [] == frames;
      ok := true;
    }

    /** Drops what was read, when nothing is left or the read part is the larger one. */
    method Compact()
      requires readOffset <= |buffer|
      modifies this
      ensures readOffset <= |buffer| && Unread() == old(Unread())
    {
      if readOffset == |buffer| {
        buffer := [];
        readOffset := 0;
      } else if readOffset > |buffer| / 2 {
        buffer := buffer[readOffset..];
        readOffset := 0;
      }
    }

    /** One turn of the outer loop of `push`: takes in as much as fits one maximum frame. */
    method TakeChunk(chunk: seq<byte>) returns (frames: seq<Frame>, ok: bool)
      requires Valid() && |Unread()| + |chunk| <= MAX_FRAME
      modifies this
      ensures Valid()
      ensures ok ==> ScanAll(old(Unread()) + chunk) == Scan(frames, Unread(), false)
      ensures !ok ==> ScanAll(old(Unread()) + chunk).failed && Broken()
    {
      ghost var before := Unread();
      buffer := buffer + chunk;
      assert buffer[readOffset..] == before + chunk;
      frames, ok := TakeFrames();
      if ok {
        Compact();
      }
    }

    /**
      * While unbroken, a push succeeds exactly when the unread octets and the new
      * ones scan without error; then it returns their frames and keeps the rest,
      * which is shorter than a maximum frame. Once broken, it fails on any input.
      */
    method Push(bytes: seq<byte>) returns (r: Result<seq<Frame>>)
      requires Valid()
      modifies this
      ensures Valid()
      ensures !old(Broken()) ==> Pushed(old(Unread()), bytes, r, Unread())
      ensures old(Broken()) && bytes != [] ==> r.Failure? && Broken()
      ensures old(Broken()) && bytes == [] ==> r == Success([]) && Unread() == old(Unread())
    {
      hide DecodeFrame, ScanAll;
      var frames: seq<Frame> := [];
      var offset := 0;
      ghost var start, broken := Unread(), Broken();
      assert start + bytes[..0] == start;
      UnfinishedScan(start);
      assert bytes[..|bytes|] == bytes;
      while offset < |bytes|
        invariant offset <= |bytes| && Valid()
        invariant offset == 0 ==> Unread() == start && frames == []
        invariant broken ==> offset == 0
        invariant !broken ==> ScanAll(start + bytes[..offset]) == Scan(frames, Unread(), false)
      {
        var buffered := |buffer| - readOffset;
        var available := MAX_FRAME - buffered;
        if available == 0 {
          return Failure;
        }
        var count := if available < |bytes| - offset then available else |bytes| - offset;
        ghost var end, unread := offset + count, Unread();
        var more, ok := TakeChunk(bytes[offset..offset + count]);
        ScanStep(start, bytes, offset, end, broken, frames, unread);
        if !ok {
          return Failure;
        }
        frames := frames + more;
        offset := offset + count;
      }
      r := Success(frames);
    }
  }

  /** What a push on unread octets `before` must return and leave unread. */
  ghost predicate Pushed(before: seq<byte>, bytes: seq<byte>, r: Result<seq<Frame>>, after: seq<byte>)
  {
    var s := ScanAll(before + bytes);
    if s.failed then r.Failure? && DecodeFrame(after).Bad()
    else r == Success(s.frames) && after == s.rest && |after| < MAX_FRAME
  }

  lemma ScanStep(start: seq<byte>, bytes: seq<byte>, i: nat, j: nat, broken: bool, frames: seq<Frame>, unread: seq<byte>)
    requires i < j <= |bytes|
    requires broken ==> i == 0 && unread == start && DecodeFrame(start).Bad()
    requires !broken ==> ScanAll(start + bytes[..i]) == Scan(frames, unread, false)
    ensures broken ==> ScanAll(unread + bytes[i..j]).failed
    ensures !broken ==> ScanAll(start + bytes[..j]) == After(frames, ScanAll(unread + bytes[i..j]))
    ensures !broken && ScanAll(start + bytes[..j]).failed ==> ScanAll(start + bytes).failed
  {
    CutAt(start, bytes, i, j);
    ScanResumes(start + bytes[..j], bytes[j..]);
    if broken {
      VerdictIsStable(start, bytes[i..j]);
    } else {
      ScanResumes(start + bytes[..i], bytes[i..j]);
    }
  }

  // ---- Whole streams, however cut ----

  function Concat(chunks: seq<seq<byte>>): (s: seq<byte>)
  {
    if chunks == [] then [] else Concat(chunks[..|chunks| - 1]) + chunks[|chunks| - 1]
  }

  function WireAll(frames: seq<Frame>): (s: seq<byte>)
    requires forall f :: f in frames ==> Encodable(f)
  {
    if frames == [] then [] else Wire(frames[0]) + WireAll(frames[1..])
  }

  /** All frames returned by pushing the chunks in turn into a decoder with nothing unread, and what is then unread. */
  function PushedAll(chunks: seq<seq<byte>>): (s: Scan)
  {
    if chunks == [] then Scan([], [], false)
    else
      var s := PushedAll(chunks[..|chunks| - 1]);
      if s.failed then s else After(s.frames, ScanAll(s.rest + chunks[|chunks| - 1]))
  }

  /** Pushing chunks is scanning their concatenation. */
  lemma {:induction false} ChunksDoNotMatter(chunks: seq<seq<byte>>)
    ensures PushedAll(chunks).failed == ScanAll(Concat(chunks)).failed
    ensures PushedAll(chunks).frames == ScanAll(Concat(chunks)).frames
    ensures !PushedAll(chunks).failed ==> PushedAll(chunks).rest == ScanAll(Concat(chunks)).rest
  {
    hide DecodeFrame;
    if chunks == [] {
      ScanOfNothing();
    } else {
      var front, last := chunks[..|chunks| - 1], chunks[|chunks| - 1];
      ChunksDoNotMatter(front);
      ScanResumes(Concat(front), last);
    }
  }

  lemma ScanOfNothing()
    ensures ScanAll([]) == Scan([], [], false)
  {}

  lemma ScanOfFrame(f: Frame, rest: seq<byte>)
    requires Encodable(f)
    ensures ScanAll(Wire(f) + rest) == After([f], ScanAll(rest))
  {
    DecodeOfWire(f, rest);
    assert (Wire(f) + rest)[|Wire(f)|..] == rest;
  }

  lemma {:induction false} ScanOfWire(frames: seq<Frame>, tail: seq<byte>)
    requires forall f :: f in frames ==> Encodable(f)
    requires DecodeFrame(tail).NeedMoreData?
    ensures ScanAll(WireAll(frames) + tail) == Scan(frames, tail, false)
    decreases |frames|
  {
    hide DecodeFrame, Wire, Encodable;
    if frames == [] {
      assert WireAll(frames) + tail == tail;
    } else {
      ScanOfWire(frames[1..], tail);
      ScanOfFrame(frames[0], WireAll(frames[1..]) + tail);
      assert WireAll(frames) + tail == Wire(frames[0]) + (WireAll(frames[1..]) + tail);
      assert [frames[0]] + frames[1..] == frames;
    }
  }

  /**
    * However a stream of frames that ends inside a frame is cut into chunks,
    * pushing them returns exactly the frames, in order, and leaves the unfinished
    * end unread.
    */
  lemma EveryChunkingReturnsTheFrames(frames: seq<Frame>, next: Frame, n: nat, chunks: seq<seq<byte>>)
    requires (forall f :: f in frames ==> Encodable(f)) && Encodable(next) && n < |Wire(next)|
    requires Concat(chunks) == WireAll(frames) + Wire(next)[..n]
    ensures PushedAll(chunks) == Scan(frames, Wire(next)[..n], false)
  {
    PrefixNeedsMore(next, n);
    ScanOfWire(frames, Wire(next)[..n]);
    ChunksDoNotMatter(chunks);
  }

  /** Driving the decoder with the chunks: it returns what `PushedAll` says, or fails when that fails. */
  method PushChunks(decoder: FrameStreamDecoder, chunks: seq<seq<byte>>) returns (r: Result<seq<Frame>>)
    requires decoder.Valid() && decoder.Unread() == []
    modifies decoder
    ensures decoder.Valid()
    ensures PushedAll(chunks).failed <==> r.Failure?
    ensures r.Success? ==> PushedAll(chunks) == Scan(r.value, decoder.Unread(), false)
    ensures r.Failure? ==> decoder.Broken()
  {
    hide DecodeFrame;
    var frames: seq<Frame> := [];
    ghost var empty := decoder.Unread();
    ScanOfNothing();
    for i := 0 to |chunks|
      invariant decoder.Valid() && !decoder.Broken()
      invariant PushedAll(chunks[..i]) == Scan(frames, decoder.Unread(), false)
    {
      assert chunks[..i + 1][..i] == chunks[..i];
      var more := decoder.Push(chunks[i]);
      if more.Failure? {
        FailureStays(chunks, i + 1);
        return Failure;
      }
      frames := frames + more.value;
    }
    assert chunks[..|chunks|] == chunks;
    r := Success(frames);
  }

  lemma {:induction false} FailureStays(chunks: seq<seq<byte>>, i: nat)
    requires i <= |chunks| && PushedAll(chunks[..i]).failed
    ensures PushedAll(chunks).failed
    decreases |chunks|
  {
    if i == |chunks| {
      assert chunks[..i] == chunks;
    } else {
      assert chunks[..|chunks| - 1][..i] == chunks[..i];
      FailureStays(chunks[..|chunks| - 1], i);
    }
  }
}
