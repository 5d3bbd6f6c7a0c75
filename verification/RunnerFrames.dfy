/**
 The frames a runner writes to its stdout: a five-byte envelope (tag and little-endian
 length) followed by a payload. `ReadFrame` and `ReadAll` say what the reader makes of any
 byte stream; the methods below them are the loops of the program, which meet short reads
 and short writes.
 */
module RunnerFrames {
  import opened Common
  import opened Bytes

  const MAX_FRAME_BYTES: nat := 0x200_0000

  const CHUNK: byte := 0x01
  const ERROR: byte := 0x03
  const COMPLETED: byte := 0x04
  const READY: byte := 0x10

  datatype Frame =
    | Ready
    | Chunk(text: Bytes)
    | Completed(reason: byte, inputTokens: uint32, outputTokens: uint32)
    | Error(code: Bytes, message: Bytes)

  datatype ReadError =
    | EndOfFile | UnexpectedEndOfFile | ReaderFailed | FrameTooLarge
    | BadReady | BadChunk | BadCompleted | BadError | UnknownTag

  datatype ReadResult = Got(frame: Frame, rest: Bytes) | Failed(error: ReadError)

  /* ---------- what a runner writes ---------- */

  function Envelope(tag: byte, payload: Bytes): (b: Bytes)
    ensures |b| == 5 + |payload|
  {
    [tag] + LittleEndian(|payload|, 4) + payload
  }

  function Tag(f: Frame): byte {
    match f
    case Ready => READY
    case Chunk(_) => CHUNK
    case Completed(_, _, _) => COMPLETED
    case Error(_, _) => ERROR
  }

  function Payload(f: Frame): Bytes {
    match f
    case Ready => []
    case Chunk(text) => text
    case Completed(reason, input, output) => [reason] + LittleEndian(input, 4) + LittleEndian(output, 4)
    case Error(code, message) => LittleEndian(|code|, 2) + code + message
  }

  predicate ValidFrame(f: Frame) {
    && |Payload(f)| <= MAX_FRAME_BYTES
    && match f
       case Ready => true
       case Chunk(text) => ValidUtf8(text)
       case Completed(reason, _, _) => reason <= 3
       case Error(code, message) => 0 < |code| < 0x1_0000 && ValidUtf8(code) && ValidUtf8(message)
  }

  predicate AllValid(fs: seq<Frame>) { forall i :: 0 <= i < |fs| ==> ValidFrame(fs[i]) }

  function EncodeFrame(f: Frame): Bytes { Envelope(Tag(f), Payload(f)) }

  function EncodeAll(fs: seq<Frame>): Bytes {
    if fs == [] then [] else EncodeFrame(fs[0]) + EncodeAll(fs[1..])
  }

  /* ---------- fatal errors ---------- */

  /** The bytes of an ASCII string literal. */
  function Ascii(s: string): Bytes { seq(|s|, i requires 0 <= i < |s| => s[i] as int % 0x100) }

  /** Error codes after which the process is not used again. */
  predicate IsFatal(code: Bytes) {
    || code == Ascii("malformed_frame") || code == Ascii("frame_too_large") || code == Ascii("decode_failed")
    || code == Ascii("detokenize_failed") || code == Ascii("invalid_backend_utf8") || code == Ascii("not_configured")
  }

  /* ---------- what the reader makes of a byte stream ---------- */

  function DecodePayload(tag: byte, payload: Bytes): Result<Frame, ReadError> {
    if tag == READY then
      if payload != [] then Err(BadReady) else Ok(Ready)
    else if tag == CHUNK then
      if !ValidUtf8(payload) then Err(BadChunk) else Ok(Chunk(payload))
    else if tag == COMPLETED then
      if |payload| != 9 || payload[0] > 3 then Err(BadCompleted)
      else
        FourByteBound(payload[1..5]); FourByteBound(payload[5..9]);
        Ok(Completed(payload[0], FromLittleEndian(payload[1..5]), FromLittleEndian(payload[5..9])))
    else if tag == ERROR then
      if |payload| < 2 then Err(BadError) else
      var codeLength := FromLittleEndian(payload[..2]);
      if |payload| < 2 + codeLength then Err(BadError) else
      var code, message := payload[2..2 + codeLength], payload[2 + codeLength..];
      if code == [] || !ValidUtf8(code) || !ValidUtf8(message) then Err(BadError) else Ok(Error(code, message))
    else Err(UnknownTag)
  }

  /** One frame from the bytes s, where the stream ends after s. A stream that ends where a read
      is about to begin gives the plain end of file, even between a header and its payload. */
  function ReadFrame(s: Bytes): ReadResult {
    if s == [] then Failed(EndOfFile)
    else if |s| < 5 then Failed(UnexpectedEndOfFile)
    else
      var length := FromLittleEndian(s[1..5]);
      if length > MAX_FRAME_BYTES then Failed(FrameTooLarge)
      else if length > 0 && |s| == 5 then Failed(EndOfFile)
      else if |s| < 5 + length then Failed(UnexpectedEndOfFile)
      else match DecodePayload(s[0], s[5..5 + length])
           case Ok(f) => Got(f, s[5 + length..])
           case Err(e) => Failed(e)
  }

  /** Every frame delivered before the reader stops, and the failure it reports, if any. */
  datatype Delivery = Delivery(frames: seq<Frame>, failure: Option<ReadError>)

  function ReadAll(s: Bytes): Delivery
    decreases |s|
  {
    match ReadFrame(s)
    case Got(f, rest) =>
      var later := ReadAll(rest);
      Delivery([f] + later.frames, later.failure)
    case Failed(e) => Delivery([], if e == EndOfFile then None else Some(e))
  }

  /** What becomes of the two ends of file when the reader breaks off with an error instead. */
  function AtEnd(e: ReadError, broken: bool): ReadError {
    if broken && (e == EndOfFile || e == UnexpectedEndOfFile) then ReaderFailed else e
  }

  /** The delivery of a stream that ends after s, or breaks off there with a read error. */
  function ReadAllFrom(s: Bytes, broken: bool): Delivery {
    var d := ReadAll(s);
    match d.failure
    case None => Delivery(d.frames, if broken then Some(ReaderFailed) else None)
    case Some(e) => Delivery(d.frames, Some(AtEnd(e, broken)))
  }

  /** Whole frames among the first k bytes of the encoding of fs. */
  function WholeFrames(fs: seq<Frame>, k: nat): (n: nat)
    ensures n <= |fs|
  {
    if fs == [] || k < |EncodeFrame(fs[0])| then 0
    else 1 + WholeFrames(fs[1..], k - |EncodeFrame(fs[0])|)
  }

  lemma FourByteBound(b: Bytes)
    requires |b| == 4
    ensures FromLittleEndian(b) < 0x1_0000_0000
  {
    FromLittleEndianRoundTrip(b);
    Powers();
  }

  /* ---------- reading inverts writing ---------- */

  lemma EnvelopeParts(tag: byte, payload: Bytes, rest: Bytes)
    requires |payload| < 0x1_0000_0000
    ensures var s := Envelope(tag, payload) + rest;
            s[0] == tag && FromLittleEndian(s[1..5]) == |payload| && s[5..5 + |payload|] == payload
              && s[5 + |payload|..] == rest
  {
    var s := Envelope(tag, payload) + rest;
    Powers();
    LittleEndianRoundTrip(|payload|, 4);
    assert s[1..5] == LittleEndian(|payload|, 4);
  }

  lemma DecodeInvertsPayload(f: Frame)
    requires ValidFrame(f)
    ensures DecodePayload(Tag(f), Payload(f)) == Ok(f)
  {
    var p := Payload(f);
    Powers();
    match f
    case Ready =>
    case Chunk(_) =>
    case Completed(_, input, output) =>
      assert p[1..5] == LittleEndian(input, 4) && p[5..9] == LittleEndian(output, 4);
      LittleEndianRoundTrip(input, 4);
      LittleEndianRoundTrip(output, 4);
    case Error(code, message) =>
      assert p[..2] == LittleEndian(|code|, 2);
      LittleEndianRoundTrip(|code|, 2);
      assert p[2..2 + |code|] == code && p[2 + |code|..] == message;
  }

  /** The bytes of each kind of frame: a tag, the length of the rest, least significant byte first, and the rest. */
  lemma WireFormat(f: Frame)
    requires |Payload(f)| <= 0x200_0000
    ensures var b := EncodeFrame(f);
            && |b| >= 5 && FromLittleEndian(b[1..5]) == |b| - 5
            && match f
               case Ready => b[0] == 0x10 && |b| == 5
               case Chunk(text) => b[0] == 0x01 && b[5..] == text
               case Completed(reason, input, output) => b[0] == 0x04 && CompletedBytes(b[5..], reason, input, output)
               case Error(code, message) => b[0] == 0x03 && ErrorBytes(b[5..], code, message)
  {
    var b := EncodeFrame(f);
    EnvelopeParts(Tag(f), Payload(f), []);
    assert b + [] == b && b[5..] == Payload(f);
    match f
    case Ready =>
    case Chunk(_) =>
    case Completed(reason, input, output) => CompletedIsCounts(f);
    case Error(code, message) => ErrorIsTexts(f);
  }

  predicate CompletedBytes(p: Bytes, reason: byte, input: uint32, output: uint32) {
    |p| == 9 && p[0] == reason && FromLittleEndian(p[1..5]) == input && FromLittleEndian(p[5..9]) == output
  }

  lemma CompletedIsCounts(f: Frame)
    requires f.Completed?
    ensures CompletedBytes(Payload(f), f.reason, f.inputTokens, f.outputTokens)
  {
    var p := Payload(f);
    Powers();
    assert p[1..5] == LittleEndian(f.inputTokens, 4) && p[5..9] == LittleEndian(f.outputTokens, 4);
    LittleEndianRoundTrip(f.inputTokens, 4);
    LittleEndianRoundTrip(f.outputTokens, 4);
  }

  predicate ErrorBytes(p: Bytes, code: Bytes, message: Bytes) {
    |p| >= 2 && p[2..] == code + message && (|code| < 0x1_0000 ==> FromLittleEndian(p[..2]) == |code|)
  }

  lemma ErrorIsTexts(f: Frame)
    requires f.Error?
    ensures ErrorBytes(Payload(f), f.code, f.message)
  {
    var p := Payload(f);
    assert p[2..] == f.code + f.message && p[..2] == LittleEndian(|f.code|, 2);
    if |f.code| < 0x1_0000 {
      Powers();
      LittleEndianRoundTrip(|f.code|, 2);
    }
  }

  lemma PayloadInvertsCompleted(payload: Bytes)
    requires DecodePayload(COMPLETED, payload).Ok?
    ensures var f := DecodePayload(COMPLETED, payload).value; f.Completed? && f.reason <= 3 && Payload(f) == payload
  {
    FromLittleEndianRoundTrip(payload[1..5]);
    FromLittleEndianRoundTrip(payload[5..9]);
    assert payload == [payload[0]] + payload[1..5] + payload[5..9];
  }

  lemma PayloadInvertsError(payload: Bytes)
    requires DecodePayload(ERROR, payload).Ok?
    ensures var f := DecodePayload(ERROR, payload).value;
            && f.Error? && Payload(f) == payload && 0 < |f.code| < 0x1_0000
            && ValidUtf8(f.code) && ValidUtf8(f.message)
  {
    FromLittleEndianRoundTrip(payload[..2]);
    Powers();
    var n := FromLittleEndian(payload[..2]);
    assert payload == payload[..2] + payload[2..2 + n] + payload[2 + n..];
  }

  lemma PayloadInvertsDecode(tag: byte, payload: Bytes)
    requires DecodePayload(tag, payload).Ok? && |payload| <= MAX_FRAME_BYTES
    ensures var f := DecodePayload(tag, payload).value; ValidFrame(f) && Tag(f) == tag && Payload(f) == payload
  {
    if tag == COMPLETED {
      PayloadInvertsCompleted(payload);
    } else if tag == ERROR {
      PayloadInvertsError(payload);
    }
  }

  lemma ReadInvertsEncode(f: Frame, rest: Bytes)
    requires ValidFrame(f)
    ensures ReadFrame(EncodeFrame(f) + rest) == Got(f, rest)
  {
    EnvelopeParts(Tag(f), Payload(f), rest);
    DecodeInvertsPayload(f);
  }

  lemma SplitEnvelope(s: Bytes, length: nat)
    requires 5 + length <= |s|
    ensures s == [s[0]] + s[1..5] + s[5..5 + length] + s[5 + length..]
  {
  }

  lemma EncodeInvertsRead(s: Bytes)
    requires ReadFrame(s).Got?
    ensures var r := ReadFrame(s); ValidFrame(r.frame) && s == EncodeFrame(r.frame) + r.rest
  {
    var length := FromLittleEndian(s[1..5]);
    PayloadInvertsDecode(s[0], s[5..5 + length]);
    FromLittleEndianRoundTrip(s[1..5]);
    SplitEnvelope(s, length);
  }

  /** The reader takes a frame off a stream exactly when the stream starts with that frame's
      encoding: it accepts no other byte sequence for it. */
  lemma ReadFrameIff(s: Bytes, f: Frame, rest: Bytes)
    ensures ReadFrame(s) == Got(f, rest) <==> ValidFrame(f) && s == EncodeFrame(f) + rest
  {
    if ReadFrame(s) == Got(f, rest) {
      EncodeInvertsRead(s);
    } else if ValidFrame(f) && s == EncodeFrame(f) + rest {
      ReadInvertsEncode(f, rest);
    }
  }

  lemma CutFrame(f: Frame, k: nat)
    requires ValidFrame(f) && k < |EncodeFrame(f)|
    ensures ReadFrame(EncodeFrame(f)[..k]) == Failed(if k == 0 || k == 5 then EndOfFile else UnexpectedEndOfFile)
  {
    if k >= 5 {
      var whole := Envelope(Tag(f), Payload(f)) + [];
      var s := EncodeFrame(f)[..k];
      EnvelopeParts(Tag(f), Payload(f), []);
      assert s[1..5] == whole[1..5];
      assert FromLittleEndian(s[1..5]) == |Payload(f)|;
    }
  }

  lemma EncodeAllPrefix(fs: seq<Frame>, n: nat)
    requires 0 < n <= |fs|
    ensures EncodeAll(fs[..n]) == EncodeFrame(fs[0]) + EncodeAll(fs[1..][..n - 1])
  {
    assert fs[..n][1..] == fs[1..][..n - 1];
  }

  lemma ReadAllAfter(f: Frame, later: Bytes)
    requires ValidFrame(f)
    ensures ReadAll(EncodeFrame(f) + later) == Delivery([f] + ReadAll(later).frames, ReadAll(later).failure)
  {
    ReadInvertsEncode(f, later);
  }

  lemma ReadAllCut(f: Frame, k: nat)
    requires ValidFrame(f) && k < |EncodeFrame(f)|
    ensures ReadAll(EncodeFrame(f)[..k]) == CutShort([], k)
  {
    CutFrame(f, k);
  }

  /** The delivery of a stream that ends `cut` bytes into a frame. */
  function CutShort(frames: seq<Frame>, cut: nat): Delivery {
    Delivery(frames, if cut == 0 || cut == 5 then None else Some(UnexpectedEndOfFile))
  }

  /** What a reader of the first k bytes of the encoding of fs delivers. */
  function DeliveredBefore(fs: seq<Frame>, k: nat): Delivery
    requires k <= |EncodeAll(fs)|
  {
    WholeFramesFit(fs, k);
    var whole := fs[..WholeFrames(fs, k)];
    CutShort(whole, k - |EncodeAll(whole)|)
  }

  lemma {:induction false} WholeFramesFit(fs: seq<Frame>, k: nat)
    requires k <= |EncodeAll(fs)|
    ensures var n := WholeFrames(fs, k);
            && |EncodeAll(fs[..n])| <= k
            && (n < |fs| ==> k < |EncodeAll(fs[..n])| + |EncodeFrame(fs[n])|)
  {
    if fs != [] && k >= |EncodeFrame(fs[0])| {
      var n := WholeFrames(fs, k);
      WholeFramesFit(fs[1..], k - |EncodeFrame(fs[0])|);
      EncodeAllPrefix(fs, n);
      assert n < |fs| ==> fs[n] == fs[1..][n - 1];
    }
  }

  lemma DeliveredBeforeStep(fs: seq<Frame>, k: nat)
    requires fs != [] && |EncodeFrame(fs[0])| <= k <= |EncodeAll(fs)|
    ensures var d := DeliveredBefore(fs[1..], k - |EncodeFrame(fs[0])|);
            DeliveredBefore(fs, k) == Delivery([fs[0]] + d.frames, d.failure)
  {
    var n := WholeFrames(fs, k);
    EncodeAllPrefix(fs, n);
    assert fs[..n] == [fs[0]] + fs[1..][..n - 1];
  }

  lemma EncodeAllCut(fs: seq<Frame>, k: nat)
    requires fs != [] && k <= |EncodeAll(fs)|
    ensures var e := EncodeFrame(fs[0]);
            if k < |e| then EncodeAll(fs)[..k] == e[..k]
            else k - |e| <= |EncodeAll(fs[1..])| && EncodeAll(fs)[..k] == e + EncodeAll(fs[1..])[..k - |e|]
  {
  }

  lemma TruncatedStep(fs: seq<Frame>, k: nat)
    requires fs != [] && ValidFrame(fs[0]) && |EncodeFrame(fs[0])| <= k <= |EncodeAll(fs)|
    requires var j := k - |EncodeFrame(fs[0])|; ReadAll(EncodeAll(fs[1..])[..j]) == DeliveredBefore(fs[1..], j)
    ensures ReadAll(EncodeAll(fs)[..k]) == DeliveredBefore(fs, k)
  {
    EncodeAllCut(fs, k);
    ReadAllAfter(fs[0], EncodeAll(fs[1..])[..k - |EncodeFrame(fs[0])|]);
    DeliveredBeforeStep(fs, k);
  }

  /** A stream cut after any number of bytes yields exactly the frames that lie wholly before the
      cut, in order. The cut is reported as a failure unless it falls on a frame boundary or
      right after a header. */
  lemma {:induction false} TruncatedStream(fs: seq<Frame>, k: nat)
    requires AllValid(fs) && k <= |EncodeAll(fs)|
    ensures ReadAll(EncodeAll(fs)[..k]) == DeliveredBefore(fs, k)
  {
    if fs != [] {
      EncodeAllCut(fs, k);
      if k < |EncodeFrame(fs[0])| {
        ReadAllCut(fs[0], k);
      } else {
        TruncatedStream(fs[1..], k - |EncodeFrame(fs[0])|);
        TruncatedStep(fs, k);
      }
    }
  }

  /** A stream that breaks off with a read error yields the same frames, and the break is always reported. */
  lemma BrokenStream(fs: seq<Frame>, k: nat)
    requires AllValid(fs) && k <= |EncodeAll(fs)|
    ensures ReadAllFrom(EncodeAll(fs)[..k], true) == Delivery(fs[..WholeFrames(fs, k)], Some(ReaderFailed))
  {
    TruncatedStream(fs, k);
  }

  /** Whatever bytes arrive, the delivered frames re-encode to a prefix of them. */
  lemma {:induction false} DeliveredIsPrefix(s: Bytes)
    ensures var fs := ReadAll(s).frames;
            AllValid(fs) && EncodeAll(fs) <= s
    decreases |s|
  {
    if ReadFrame(s).Got? {
      var r := ReadFrame(s);
      EncodeInvertsRead(s);
      DeliveredIsPrefix(r.rest);
      assert ReadAll(s).frames[1..] == ReadAll(r.rest).frames;
    }
  }

  /* ---------- text of a run of chunks ---------- */

  function Text(fs: seq<Frame>): Bytes {
    if fs == [] then [] else (if fs[0].Chunk? then fs[0].text else []) + Text(fs[1..])
  }

  /** Chunks are checked one by one; the text they add up to is then valid too. */
  lemma {:induction false} TextIsUtf8(fs: seq<Frame>)
    requires AllValid(fs)
    ensures ValidUtf8(Text(fs))
  {
    if fs != [] {
      TextIsUtf8(fs[1..]);
      assert ValidFrame(fs[0]);
      if fs[0].Chunk? {
        ValidUtf8Concat(fs[0].text, Text(fs[1..]));
      } else {
        assert Text(fs) == Text(fs[1..]);
      }
    }
  }

  /* ---------- the loops of the program ---------- */

  /** An io.Reader over a pipe that will carry `data` and then end, or fail (`broken`); a read may
      return any non-empty part of what was asked for. */
  class ByteReader {
    const data: Bytes
    const broken: bool
    var position: nat

    constructor (data: Bytes, broken: bool)
      ensures this.data == data && this.broken == broken && position == 0
    {
      this.data, this.broken := data, broken;
      position := 0;
    }

    predicate Valid() reads this { position <= |data| }

    function Remaining(): Bytes
      requires Valid()
      reads this
    {
      data[position..]
    }

    method Read(limit: nat) returns (got: Bytes, error: Option<ReadError>)
      requires Valid() && limit > 0
      modifies this
      ensures Valid()
      ensures old(Remaining()) == got + Remaining()
      ensures |got| <= limit && (got == [] <==> old(Remaining()) == [])
      ensures error == if got == [] then Some(AtEnd(EndOfFile, broken)) else None
    {
      if position == |data| {
        got, error := [], Some(AtEnd(EndOfFile, broken));
      } else {
        var n: nat :| 1 <= n <= limit && position + n <= |data|;
        got, error := data[position..position + n], None;
        position := position + n;
      }
    }
  }

  /** io.ReadFull */
  method ReadFull(reader: ByteReader, size: nat) returns (buffer: Result<Bytes, ReadError>)
    requires reader.Valid()
    modifies reader
    ensures reader.Valid()
    ensures var s := old(reader.Remaining());
            if |s| >= size then buffer == Ok(s[..size]) && reader.Remaining() == s[size..]
            else buffer == Err(AtEnd(if s == [] then EndOfFile else UnexpectedEndOfFile, reader.broken))
  {
    var s := reader.Remaining();
    var filled: Bytes := [];
    while |filled| < size
      invariant reader.Valid() && |filled| <= size
      invariant s == filled + reader.Remaining()
    {
      var got, error := reader.Read(size - |filled|);
      if error.Some? {
        return Err(if filled != [] && error.value == EndOfFile then UnexpectedEndOfFile else error.value);
      }
      filled := filled + got;
    }
    return Ok(filled);
  }

  /** However the bytes are split into reads, the frame is the one ReadFrame gives. */
  method ReadRunnerProtocolFrame(reader: ByteReader) returns (r: Result<Frame, ReadError>)
    requires reader.Valid()
    modifies reader
    ensures reader.Valid()
    ensures match ReadFrame(old(reader.Remaining()))
            case Got(f, rest) => r == Ok(f) && reader.Remaining() == rest
            case Failed(e) => r == Err(AtEnd(e, reader.broken))
  {
    var s := reader.Remaining();
    var header := ReadFull(reader, 5);
    if header.Err? {
      return Err(header.error);
    }
    assert header.value[1..5] == s[1..5];
    var length := FromLittleEndian(header.value[1..5]);
    if length > MAX_FRAME_BYTES {
      return Err(FrameTooLarge);
    }
    var payload := ReadFull(reader, length);
    if payload.Err? {
      return Err(payload.error);
    }
    assert payload.value == s[5..5 + length];
    DecodeNeverEnds(header.value[0], payload.value, reader.broken);
    r := DecodePayload(header.value[0], payload.value);
  }

  /** A decoding error is not the end of the stream. */
  lemma DecodeNeverEnds(tag: byte, payload: Bytes, broken: bool)
    ensures DecodePayload(tag, payload).Err? ==>
              var e := DecodePayload(tag, payload).error; e != EndOfFile && AtEnd(e, broken) == e
  {
  }

  /** `whole` is what is delivered in all when `delivered` has been and s is still to come. */
  predicate Continues(whole: Delivery, delivered: seq<Frame>, s: Bytes) {
    whole == Delivery(delivered + ReadAll(s).frames, ReadAll(s).failure)
  }

  lemma ContinuesStep(whole: Delivery, delivered: seq<Frame>, s: Bytes)
    requires Continues(whole, delivered, s) && ReadFrame(s).Got?
    ensures Continues(whole, delivered + [ReadFrame(s).frame], ReadFrame(s).rest)
  {
    var later := ReadAll(ReadFrame(s).rest);
    assert delivered + ([ReadFrame(s).frame] + later.frames) == delivered + [ReadFrame(s).frame] + later.frames;
  }

  lemma ContinuesEnd(whole: Delivery, delivered: seq<Frame>, s: Bytes, broken: bool)
    requires Continues(whole, delivered, s) && ReadFrame(s).Failed?
    ensures var e := AtEnd(ReadFrame(s).error, broken);
            whole.frames == delivered
            && (whole.failure == if ReadFrame(s).error == EndOfFile then None else Some(ReadFrame(s).error))
            && (if e == EndOfFile then None else Some(e))
               == (match whole.failure
                   case None => if broken then Some(ReaderFailed) else None
                   case Some(f) => Some(AtEnd(f, broken)))
  {
    assert delivered + [] == delivered;
  }

  /** The reader goroutine: what it puts on the channel before closing it. */
  method ReadRunnerFrames(reader: ByteReader) returns (frames: seq<Frame>, failure: Option<ReadError>)
    requires reader.Valid()
    modifies reader
    ensures Delivery(frames, failure) == ReadAllFrom(old(reader.Remaining()), reader.broken)
  {
    frames := [];
    ghost var whole := ReadAll(reader.Remaining());
    while true
      invariant reader.Valid() && Continues(whole, frames, reader.Remaining())
      decreases |reader.Remaining()|
    {
      ghost var before := reader.Remaining();
      var r := ReadRunnerProtocolFrame(reader);
      if r.Err? {
        ContinuesEnd(whole, frames, before, reader.broken);
        failure := if r.error == EndOfFile then None else Some(r.error);
        return;
      }
      ContinuesStep(whole, frames, before);
      frames := frames + [r.value];
    }
  }

  datatype WriteError = ShortWrite | WriterFailed | PayloadTooLarge

  /** An io.Writer that may take any part of what it is given, or fail. */
  class ByteWriter {
    var written: Bytes

    method Write(data: Bytes) returns (n: nat, failed: bool)
      modifies this
      ensures n <= |data| && written == old(written) + data[..n]
    {
      n :| 0 <= n <= |data|;
      failed := *;
      written := written + data[..n];
    }
  }

  /** Either everything was written or an error is returned and only a prefix was. */
  method WriteAll(writer: ByteWriter, data: Bytes) returns (error: Option<WriteError>)
    modifies writer
    ensures error == None ==> writer.written == old(writer.written) + data
    ensures exists k: nat :: k <= |data| && writer.written == old(writer.written) + data[..k]
  {
    var left := data;
    ghost var k: nat := 0;
    while |left| > 0
      invariant k <= |data| && left == data[k..]
      invariant writer.written == old(writer.written) + data[..k]
    {
      var n, failed := writer.Write(left);
      assert data[..k] + left[..n] == data[..k + n];
      k := k + n;
      if failed {
        return Some(WriterFailed);
      }
      if n == 0 {
        return Some(ShortWrite);
      }
      left := left[n..];
    }
    assert data[..k] == data;
    return None;
  }

  /** The stream never carries anything but a prefix of the envelope, and the whole of it on success. */
  method WriteRunnerEnvelope(writer: ByteWriter, tag: byte, payload: Bytes) returns (error: Option<WriteError>)
    modifies writer
    ensures error == None ==>
            |payload| <= MAX_FRAME_BYTES && writer.written == old(writer.written) + Envelope(tag, payload)
    ensures |payload| > MAX_FRAME_BYTES ==> error == Some(PayloadTooLarge) && writer.written == old(writer.written)
    ensures exists k: nat :: k <= 5 + |payload| && writer.written == old(writer.written) + Envelope(tag, payload)[..k]
  {
    var whole := Envelope(tag, payload);
    if |payload| > MAX_FRAME_BYTES {
      assert old(writer.written) == old(writer.written) + whole[..0];
      return Some(PayloadTooLarge);
    }
    var header := [tag] + LittleEndian(|payload|, 4);
    assert whole == header + payload;
    error := WriteAll(writer, header);
    if error.Some? {
      ghost var k: nat :| k <= |header| && writer.written == old(writer.written) + header[..k];
      assert header[..k] == whole[..k];
      return;
    }
    label headerWritten:
    error := WriteAll(writer, payload);
    ghost var k: nat :| k <= |payload| && writer.written == old@headerWritten(writer.written) + payload[..k];
    assert header + payload[..k] == whole[..5 + k];
  }
}
