/**
 The Generate message: what the provider encodes for a request, what a runner decodes, and the
 limits a request has passed before it is encoded. Floating-point settings are 64-bit patterns.
 */
module RunnerGenerate {
  import opened Common
  import opened Bytes
  import RunnerFrames

  const MAX_PROMPT_BYTES: nat := 0x100_0000
  const MAX_STOP_COUNT: nat := 64
  const MAX_STOP_BYTES: nat := 0x1_0000
  const RAW: byte := 0
  const FORMATTED: byte := 1

  datatype Request = Request(
    prompt: Bytes, mode: byte, maxTokens: uint32, temperature: uint64, topP: uint64, topK: int32,
    minP: uint64, presencePenalty: uint64, repeatPenalty: uint64, seed: uint64, stops: seq<Bytes>)

  datatype EncodeError =
    | BadMode | PromptNotUtf8 | PromptTooLong | TooManyStops | BadStop | StopsTooLong | PayloadTooLong

  /* ---------- encoding ---------- */

  /** Go's uint32(x) and int32(x) for an x of any width. */
  function ToUint32(x: int): uint32 { x % 0x1_0000_0000 }

  function ToInt32(x: int): int32 {
    var low := x % 0x1_0000_0000;
    if low < 0x8000_0000 then low else low - 0x1_0000_0000
  }

  function StopBytes(stops: seq<Bytes>): nat {
    if stops == [] then 0 else |stops[0]| + StopBytes(stops[1..])
  }

  /** The stop-string checks, in order, `total` bytes having been counted before. */
  function StopsError(stops: seq<Bytes>, total: nat): Option<EncodeError> {
    if stops == [] then None
    else if stops[0] == [] || !ValidUtf8(stops[0]) then Some(BadStop)
    else if |stops[0]| > MAX_STOP_BYTES || total + |stops[0]| > MAX_STOP_BYTES then Some(StopsTooLong)
    else StopsError(stops[1..], total + |stops[0]|)
  }

  function Header(r: Request, count: byte): (b: Bytes)
    ensures |b| == 58
  {
    [r.mode, count] + LittleEndian(r.maxTokens, 4) + LittleEndian(r.temperature, 8) + LittleEndian(r.topP, 8)
    + LittleEndian(ToUint32(r.topK), 4) + LittleEndian(r.minP, 8) + LittleEndian(r.presencePenalty, 8)
    + LittleEndian(r.repeatPenalty, 8) + LittleEndian(r.seed, 8)
  }

  function EncodeStops(stops: seq<Bytes>): Bytes {
    if stops == [] then [] else LittleEndian(|stops[0]|, 4) + stops[0] + EncodeStops(stops[1..])
  }

  /** Go's byte(len(stops)). */
  function StopCount(r: Request): byte { |r.stops| % 0x100 }

  /** The payload before its length is checked. */
  function PayloadOf(r: Request): Bytes { Header(r, StopCount(r)) + EncodeStops(r.stops) + r.prompt }

  function RequestError(r: Request): Option<EncodeError> {
    if r.mode != RAW && r.mode != FORMATTED then Some(BadMode)
    else if !ValidUtf8(r.prompt) then Some(PromptNotUtf8)
    else if |r.prompt| > MAX_PROMPT_BYTES then Some(PromptTooLong)
    else if |r.stops| > MAX_STOP_COUNT then Some(TooManyStops)
    else StopsError(r.stops, 0)
  }

  function Encode(r: Request): Result<Bytes, EncodeError> {
    match RequestError(r)
    case Some(e) => Err(e)
    case None => if |PayloadOf(r)| > RunnerFrames.MAX_FRAME_BYTES then Err(PayloadTooLong) else Ok(PayloadOf(r))
  }

  /* ---------- what a runner decodes ---------- */

  function FieldAt(p: Bytes, from: nat, width: nat): nat
    requires from + width <= |p|
  {
    FromLittleEndian(p[from..from + width])
  }

  lemma FieldBound(p: Bytes, from: nat, width: nat)
    requires from + width <= |p|
    ensures FieldAt(p, from, width) < Pow256(width)
  {
    FromLittleEndianRoundTrip(p[from..from + width]);
  }

  function U32At(p: Bytes, from: nat): uint32
    requires from + 4 <= |p|
  {
    Powers(); FieldBound(p, from, 4); FieldAt(p, from, 4)
  }

  function U64At(p: Bytes, from: nat): uint64
    requires from + 8 <= |p|
  {
    Powers(); FieldBound(p, from, 8); FieldAt(p, from, 8)
  }

  /** `count` stop strings off the front of p, and what follows them. */
  function DecodeStops(p: Bytes, count: nat): Option<(seq<Bytes>, Bytes)>
    decreases count
  {
    if count == 0 then Some(([], p))
    else if |p| < 4 then None
    else
      var length := U32At(p, 0);
      if |p| < 4 + length then None
      else match DecodeStops(p[4 + length..], count - 1)
           case None => None
           case Some((stops, rest)) => Some(([p[4..4 + length]] + stops, rest))
  }

  function Decode(p: Bytes): Option<Request> {
    if |p| < 58 then None
    else match DecodeStops(p[58..], p[1])
         case None => None
         case Some((stops, prompt)) =>
           Some(Request(prompt, p[0], U32At(p, 2), U64At(p, 6), U64At(p, 14), ToInt32(U32At(p, 22)),
                        U64At(p, 26), U64At(p, 34), U64At(p, 42), U64At(p, 50), stops))
  }

  /* ---------- decoding inverts encoding ---------- */

  lemma FieldOf(before: Bytes, v: nat, width: nat, after: Bytes, p: Bytes)
    requires p == before + LittleEndian(v, width) + after && v < Pow256(width)
    ensures FieldAt(p, |before|, width) == v
  {
    assert p[|before|..|before| + width] == LittleEndian(v, width);
    LittleEndianRoundTrip(v, width);
  }

  lemma HeaderInts(r: Request, count: byte, rest: Bytes)
    ensures var p := Header(r, count) + rest;
            p[0] == r.mode && p[1] == count && p[58..] == rest
            && U32At(p, 2) == r.maxTokens && U32At(p, 22) == ToUint32(r.topK) && U64At(p, 50) == r.seed
  {
    var p := Header(r, count) + rest;
    Powers();
    FieldOf(p[..2], r.maxTokens, 4, p[6..], p);
    FieldOf(p[..22], ToUint32(r.topK), 4, p[26..], p);
    FieldOf(p[..50], r.seed, 8, p[58..], p);
  }

  lemma HeaderSampling(r: Request, count: byte, rest: Bytes)
    ensures var p := Header(r, count) + rest;
            U64At(p, 6) == r.temperature && U64At(p, 14) == r.topP && U64At(p, 26) == r.minP
  {
    var p := Header(r, count) + rest;
    Powers();
    FieldOf(p[..6], r.temperature, 8, p[14..], p);
    FieldOf(p[..14], r.topP, 8, p[22..], p);
    FieldOf(p[..26], r.minP, 8, p[34..], p);
  }

  lemma HeaderPenalties(r: Request, count: byte, rest: Bytes)
    ensures var p := Header(r, count) + rest;
            U64At(p, 34) == r.presencePenalty && U64At(p, 42) == r.repeatPenalty
  {
    var p := Header(r, count) + rest;
    Powers();
    FieldOf(p[..34], r.presencePenalty, 8, p[42..], p);
    FieldOf(p[..42], r.repeatPenalty, 8, p[50..], p);
  }

  lemma DecodeFirstStop(stop: Bytes, later: Bytes, count: nat)
    requires |stop| < 0x1_0000_0000 && count > 0 && DecodeStops(later, count - 1).Some?
    ensures var (stops, rest) := DecodeStops(later, count - 1).value;
            DecodeStops(LittleEndian(|stop|, 4) + stop + later, count) == Some(([stop] + stops, rest))
  {
    var p := LittleEndian(|stop|, 4) + stop + later;
    assert U32At(p, 0) == |stop| by {
      Powers();
      FieldOf([], |stop|, 4, stop + later, p);
    }
    assert p[4..4 + |stop|] == stop && p[4 + |stop|..] == later;
  }

  lemma {:induction false} StopsRoundTrip(stops: seq<Bytes>, prompt: Bytes)
    requires StopBytes(stops) < 0x1_0000_0000
    ensures DecodeStops(EncodeStops(stops) + prompt, |stops|) == Some((stops, prompt))
  {
    if stops == [] {
      assert EncodeStops(stops) + prompt == prompt;
    } else {
      var later := EncodeStops(stops[1..]) + prompt;
      assert EncodeStops(stops) + prompt == LittleEndian(|stops[0]|, 4) + stops[0] + later;
      StopsRoundTrip(stops[1..], prompt);
      DecodeFirstStop(stops[0], later, |stops|);
      assert [stops[0]] + stops[1..] == stops;
    }
  }

  lemma {:induction false} StopsWithinLimits(stops: seq<Bytes>, total: nat)
    requires StopsError(stops, total) == None && total <= MAX_STOP_BYTES
    ensures total + StopBytes(stops) <= MAX_STOP_BYTES
    ensures |EncodeStops(stops)| == 4 * |stops| + StopBytes(stops)
  {
    if stops != [] {
      StopsWithinLimits(stops[1..], total + |stops[0]|);
    }
  }

  /** The prompt and stop limits leave room: the final length check never fails. */
  lemma PayloadFits(r: Request)
    ensures Encode(r) != Err(PayloadTooLong)
    ensures Encode(r).Ok? <==> RequestError(r) == None
    ensures Encode(r).Ok? ==> |Encode(r).value| <= 58 + 4 * MAX_STOP_COUNT + MAX_STOP_BYTES + MAX_PROMPT_BYTES
  {
    StopsNeverTooLong(r.stops, 0);
    if RequestError(r) == None {
      StopsWithinLimits(r.stops, 0);
    }
  }

  /** A request is encoded exactly if its mode is known, its texts are UTF-8 and it keeps the limits. */
  lemma EncodableIff(r: Request)
    ensures Encode(r).Ok? <==>
            && r.mode <= 1 && ValidUtf8(r.prompt) && |r.prompt| <= 16_777_216
            && |r.stops| <= 64 && StopBytes(r.stops) <= 65_536
            && forall i :: 0 <= i < |r.stops| ==> r.stops[i] != [] && ValidUtf8(r.stops[i])
  {
    PayloadFits(r);
    StopsAcceptedIff(r.stops, 0);
  }

  lemma {:induction false} StopsAcceptedIff(stops: seq<Bytes>, total: nat)
    requires total <= MAX_STOP_BYTES
    ensures StopsError(stops, total).None? <==>
            && total + StopBytes(stops) <= MAX_STOP_BYTES
            && forall i :: 0 <= i < |stops| ==> stops[i] != [] && ValidUtf8(stops[i])
  {
    if stops != [] {
      assert forall i :: 1 <= i < |stops| ==> stops[i] == stops[1..][i - 1];
      if total + |stops[0]| <= MAX_STOP_BYTES {
        StopsAcceptedIff(stops[1..], total + |stops[0]|);
      }
    }
  }

  lemma {:induction false} StopsNeverTooLong(stops: seq<Bytes>, total: nat)
    ensures StopsError(stops, total) != Some(PayloadTooLong)
  {
    if stops != [] {
      StopsNeverTooLong(stops[1..], total + |stops[0]|);
    }
  }

  lemma Associate(a: Bytes, b: Bytes, c: Bytes)
    ensures a + b + c == a + (b + c)
  {
  }

  /** Every int32, negative ones included, survives the trip through its two's complement. */
  lemma TwosComplement(x: int32)
    ensures ToInt32(ToUint32(x)) == x
  {
  }

  lemma DecodePayload(r: Request, p: Bytes, rest: Bytes)
    requires StopCount(r) == |r.stops| && p == Header(r, StopCount(r)) + rest
    requires DecodeStops(rest, |r.stops|) == Some((r.stops, r.prompt))
    ensures Decode(p) == Some(r)
  {
    HeaderInts(r, StopCount(r), rest);
    HeaderSampling(r, StopCount(r), rest);
    HeaderPenalties(r, StopCount(r), rest);
    TwosComplement(r.topK);
  }

  lemma DecodePayloadOf(r: Request)
    requires |r.stops| <= MAX_STOP_COUNT && StopBytes(r.stops) < 0x1_0000_0000
    ensures Decode(PayloadOf(r)) == Some(r)
  {
    assert StopCount(r) == |r.stops|;
    StopsRoundTrip(r.stops, r.prompt);
    Associate(Header(r, StopCount(r)), EncodeStops(r.stops), r.prompt);
    DecodePayload(r, PayloadOf(r), EncodeStops(r.stops) + r.prompt);
  }

  lemma EncodedIsPayloadOf(r: Request)
    requires Encode(r).Ok?
    ensures |r.stops| <= MAX_STOP_COUNT && StopBytes(r.stops) <= MAX_STOP_BYTES && Encode(r).value == PayloadOf(r)
  {
    StopsWithinLimits(r.stops, 0);
  }

  /** The settings are at fixed places, least significant byte first. */
  predicate SettingsAt(p: Bytes, r: Request)
    requires |p| >= 58
  {
    && p[0] == r.mode && p[1] == |r.stops|
    && FromLittleEndian(p[2..6]) == r.maxTokens
    && FromLittleEndian(p[6..14]) == r.temperature && FromLittleEndian(p[14..22]) == r.topP
    && FromLittleEndian(p[22..26]) == (if r.topK < 0 then r.topK + 0x1_0000_0000 else r.topK)
    && FromLittleEndian(p[26..34]) == r.minP && FromLittleEndian(p[34..42]) == r.presencePenalty
    && FromLittleEndian(p[42..50]) == r.repeatPenalty && FromLittleEndian(p[50..58]) == r.seed
  }

  lemma HeaderIsSettings(r: Request, rest: Bytes)
    requires |r.stops| <= MAX_STOP_COUNT
    ensures SettingsAt(Header(r, StopCount(r)) + rest, r)
  {
    HeaderInts(r, StopCount(r), rest);
    HeaderSampling(r, StopCount(r), rest);
    HeaderPenalties(r, StopCount(r), rest);
  }

  /** Where the parts of a payload are: the settings, then each stop string with its length before it,
      then the prompt. */
  lemma Layout(r: Request)
    requires Encode(r).Ok?
    ensures var p := Encode(r).value;
            && |p| == 58 + 4 * |r.stops| + StopBytes(r.stops) + |r.prompt| && SettingsAt(p, r)
            && p[|p| - |r.prompt|..] == r.prompt
            && (r.stops != [] ==>
                  && FromLittleEndian(p[58..62]) == |r.stops[0]|
                  && p[62..62 + |r.stops[0]|] == r.stops[0])
  {
    EncodedIsPayloadOf(r);
    StopsWithinLimits(r.stops, 0);
    var p, rest := PayloadOf(r), EncodeStops(r.stops) + r.prompt;
    Associate(Header(r, StopCount(r)), EncodeStops(r.stops), r.prompt);
    HeaderIsSettings(r, rest);
    PartsOf(Header(r, StopCount(r)), EncodeStops(r.stops), r.prompt);
    if r.stops != [] {
      FirstStopAt(r.stops, p);
    }
  }

  lemma PartsOf(a: Bytes, b: Bytes, c: Bytes)
    ensures var p := a + b + c; p[|p| - |c|..] == c && b <= p[|a|..]
  {
    var p := a + b + c;
    assert p[|a|..] == b + c;
  }

  lemma FirstStopAt(stops: seq<Bytes>, p: Bytes)
    requires stops != [] && |p| >= 58 && EncodeStops(stops) <= p[58..] && |stops[0]| < 0x1_0000_0000
    ensures |p| >= 62 + |stops[0]| && FromLittleEndian(p[58..62]) == |stops[0]|
            && p[62..62 + |stops[0]|] == stops[0]
  {
    var e := EncodeStops(stops);
    assert p[58..62] == e[..4] == LittleEndian(|stops[0]|, 4);
    assert p[62..62 + |stops[0]|] == e[4..4 + |stops[0]|] == stops[0];
    Powers();
    LittleEndianRoundTrip(|stops[0]|, 4);
  }

  /** A runner that decodes an encoded request gets the very same request back. */
  lemma RoundTrip(r: Request)
    requires Encode(r).Ok?
    ensures Decode(Encode(r).value) == Some(r)
  {
    EncodedIsPayloadOf(r);
    DecodePayloadOf(r);
  }

  /* ---------- from a client's settings to the request ---------- */

  const MAX_UINT64: uint64 := 0xFFFF_FFFF_FFFF_FFFF

  /** The settings a client may leave out; maxTokens and topK are Go ints. */
  datatype Settings = Settings(
    temperature: Option<uint64>, topP: Option<uint64>, maxTokens: Option<int>, topK: Option<int>,
    minP: Option<uint64>, presencePenalty: Option<uint64>, repeatPenalty: Option<uint64>,
    seed: Option<uint64>, stops: seq<Bytes>)

  function Or<T>(o: Option<T>, default: T): T { if o.Some? then o.value else default }

  /** The integer, seed and stop-string checks of ValidateGenerate. */
  predicate SettingsAccepted(s: Settings) {
    && (s.maxTokens.Some? ==> 0 < s.maxTokens.value <= 1_000_000)
    && (s.topK.Some? ==> 0 <= s.topK.value <= 1_000_000)
    && (s.seed.Some? ==> s.seed.value == MAX_UINT64 || s.seed.value <= 0xFFFF_FFFF)
    && |s.stops| <= MAX_STOP_COUNT
    && StopsError(s.stops, 0) == None
  }

  const TEMPERATURE: uint64 := 0x3FE9_9999_9999_999A   // 0.8
  const TOP_P: uint64 := 0x3FEE_6666_6666_6666         // 0.95
  const MIN_P: uint64 := 0x3FA9_9999_9999_999A         // 0.05
  const REPEAT: uint64 := 0x3FF0_0000_0000_0000        // 1.0

  /** effectiveRunnerOptions followed by the narrowing conversions of `run`. */
  function RequestFor(s: Settings, prompt: Bytes, mode: byte): Request {
    Request(prompt, mode, ToUint32(Or(s.maxTokens, 128)), Or(s.temperature, TEMPERATURE), Or(s.topP, TOP_P),
            ToInt32(Or(s.topK, 40)), Or(s.minP, MIN_P), Or(s.presencePenalty, 0), Or(s.repeatPenalty, REPEAT),
            Or(s.seed, MAX_UINT64), s.stops)
  }

  /** The request a client means: its own values, or the defaults, with nothing narrowed. */
  function Meant(s: Settings, prompt: Bytes, mode: byte): Request
    requires SettingsAccepted(s)
  {
    Request(prompt, mode, Or(s.maxTokens, 128), Or(s.temperature, TEMPERATURE), Or(s.topP, TOP_P),
            Or(s.topK, 40), Or(s.minP, MIN_P), Or(s.presencePenalty, 0), Or(s.repeatPenalty, REPEAT),
            Or(s.seed, MAX_UINT64), s.stops)
  }

  lemma NothingNarrowed(x: int)
    requires 0 <= x <= 1_000_000
    ensures ToUint32(x) == x == ToInt32(x)
  {
  }

  lemma NarrowingKeepsMeaning(s: Settings, prompt: Bytes, mode: byte)
    requires SettingsAccepted(s)
    ensures RequestFor(s, prompt, mode) == Meant(s, prompt, mode)
  {
    NothingNarrowed(Or(s.maxTokens, 128));
    NothingNarrowed(Or(s.topK, 40));
  }

  lemma OnlyPromptRefused(r: Request)
    requires (r.mode == RAW || r.mode == FORMATTED) && |r.stops| <= MAX_STOP_COUNT && StopsError(r.stops, 0) == None
    ensures Encode(r).Ok? <==> ValidUtf8(r.prompt) && |r.prompt| <= MAX_PROMPT_BYTES
  {
    PayloadFits(r);
  }

  /** For settings the client protocol accepts only the prompt can still be refused, and when it is
      not, the runner decodes exactly the request the client meant. */
  lemma AcceptedSettingsReachRunner(s: Settings, prompt: Bytes, mode: byte)
    requires SettingsAccepted(s) && (mode == RAW || mode == FORMATTED)
    ensures var encoded := Encode(RequestFor(s, prompt, mode));
            && (encoded.Ok? <==> ValidUtf8(prompt) && |prompt| <= MAX_PROMPT_BYTES)
            && (encoded.Ok? ==> Decode(encoded.value) == Some(Meant(s, prompt, mode)))
  {
    var r := RequestFor(s, prompt, mode);
    OnlyPromptRefused(r);
    if Encode(r).Ok? {
      RoundTrip(r);
      NarrowingKeepsMeaning(s, prompt, mode);
    }
  }

  /* ---------- the encoder's loops ---------- */

  method EncodeRunnerGenerate(r: Request) returns (result: Result<Bytes, EncodeError>)
    ensures result == Encode(r)
  {
    if r.mode != RAW && r.mode != FORMATTED {
      return Err(BadMode);
    }
    if !ValidUtf8(r.prompt) {
      return Err(PromptNotUtf8);
    }
    if |r.prompt| > MAX_PROMPT_BYTES {
      return Err(PromptTooLong);
    }
    if |r.stops| > MAX_STOP_COUNT {
      return Err(TooManyStops);
    }
    var totalStopBytes := 0;
    for i := 0 to |r.stops|
      invariant totalStopBytes >= 0
      invariant StopsError(r.stops, 0) == StopsError(r.stops[i..], totalStopBytes)
    {
      var stop := r.stops[i];
      assert r.stops[i..][1..] == r.stops[i + 1..];
      if stop == [] || !ValidUtf8(stop) {
        return Err(BadStop);
      }
      totalStopBytes := totalStopBytes + |stop|;
      if |stop| > MAX_STOP_BYTES || totalStopBytes > MAX_STOP_BYTES {
        return Err(StopsTooLong);
      }
    }

    assert RequestError(r) == None;

    var payload := Header(r, StopCount(r));
    payload := AppendStops(payload, r.stops);
    payload := payload + r.prompt;
    if |payload| > RunnerFrames.MAX_FRAME_BYTES {
      return Err(PayloadTooLong);
    }
    return Ok(payload);
  }

  method AppendStops(header: Bytes, stops: seq<Bytes>) returns (payload: Bytes)
    ensures payload == header + EncodeStops(stops)
  {
    payload := header;
    for i := 0 to |stops|
      invariant payload + EncodeStops(stops[i..]) == header + EncodeStops(stops)
    {
      var prefix := LittleEndian(|stops[i]|, 4) + stops[i];
      assert stops[i..][1..] == stops[i + 1..];
      Associate(payload, prefix, EncodeStops(stops[i + 1..]));
      payload := payload + prefix;
    }
  }
}
