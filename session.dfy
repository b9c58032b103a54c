/**
 * The /img route handler: it sends the fixed header list, starts the camera,
 * then loops acquiring a frame, encoding it and sending it as one multipart
 * part, until a send fails.
 *
 * The collaborators are abstract. The camera is the sequence of outcomes of
 * successive getVideoFrame calls (None for a timeout, Some(frame) for a
 * frame). The encoder is a function to bytes. The response's socket is the
 * result of its n-th write (write 0 is the header). The clock is the steady-clock
 * reading at the n-th showFps call. The source loops forever; the model
 * observes it for as many acquisition attempts as the camera sequence holds.
 */
module ImgSession {
  import opened Wrappers
  import opened Multipart
  import opened Fps

  /** The argument map that main builds, with the handler's entries. */
  datatype Args = Args(videoCamNum: int, videoWidth: int, videoHeight: int,
                       videoFps: int, videoQuality: int, streamPort: int)

  /** The defaults main puts in the argument map before option parsing. */
  const DefaultArgs := Args(0, 640, 480, 60, 80, 8001)

  /** The camera options the handler sets before startVideo. */
  datatype CameraOptions = CameraOptions(camera: int, videoWidth: int, videoHeight: int,
                                         framerate: int, verbose: bool)

  function CameraOptionsOf(args: Args): CameraOptions {
    CameraOptions(args.videoCamNum, args.videoWidth, args.videoHeight, args.videoFps, false)
  }

  /** The collaborators of one session, beyond the camera. */
  datatype World<-F> = World(
    encode: (F, int) -> string,  // imencode to JPEG at the given quality
    link: nat -> bool,           // whether the n-th write on the response succeeds
    clock: nat -> int)           // steady-clock reading, in ns, at the n-th showFps of the session

  /** What the handler does that can be observed, in the order it does it. */
  datatype Event =
    | HeaderSent(headers: seq<string>, ok: bool)  // send_header and its result
    | CameraStarted(options: CameraOptions)       // startVideo with these options
    | FrameGrabbed(ok: bool)                      // getVideoFrame and its result
    | PartSent(part: string, ok: bool)            // send_msg of one part and its result
    | FpsShown(fps: nat)                          // showFps and the value it prints

  /** How a session ended: a failed header, a failed part, or still streaming when observation ended. */
  datatype Status = HeaderFailed | SendFailed | Streaming

  /** The acquire/encode/send loop from its k-th part on, with showFps's stored time point begin. */
  function Pump<F>(frames: seq<Option<F>>, quality: int, world: World<F>, k: nat, begin: int): seq<Event>
    decreases |frames|
  {
    if frames == [] then []
    else match frames[0]
      case None => [FrameGrabbed(false)] + Pump(frames[1..], quality, world, k, begin)
      case Some(frame) =>
        var part := Part(world.encode(frame, quality));
        if !world.link(k + 1) then [FrameGrabbed(true), PartSent(part, false)]
        else
          var now := world.clock(k);
          [FrameGrabbed(true), PartSent(part, true), FpsShown(FpsFor(DiffMs(begin, now)))]
            + Pump(frames[1..], quality, world, k + 1, now)
  }

  /** The time point showFps holds once the loop has run over frames. */
  function FinalBegin<F>(frames: seq<Option<F>>, quality: int, world: World<F>, k: nat, begin: int): int
    decreases |frames|
  {
    if frames == [] then begin
    else match frames[0]
      case None => FinalBegin(frames[1..], quality, world, k, begin)
      case Some(_) =>
        if !world.link(k + 1) then begin
        else FinalBegin(frames[1..], quality, world, k + 1, world.clock(k))
  }

  /** Everything one /img request does, given the headers already on the response. */
  function Session<F>(args: Args, preset: seq<string>, frames: seq<Option<F>>,
                      world: World<F>, begin: int): seq<Event>
  {
    var headers := preset + ImgHeaders;
    if !world.link(0) then [HeaderSent(headers, false)]
    else [HeaderSent(headers, true), CameraStarted(CameraOptionsOf(args))]
           + Pump(frames, args.videoQuality, world, 0, begin)
  }

  /** The images the encoder produces for the acquired frames, in acquisition order. */
  function Encoded<F>(frames: seq<Option<F>>, quality: int, encode: (F, int) -> string): seq<string>
    decreases |frames|
  {
    if frames == [] then []
    else
      (match frames[0] case None => [] case Some(f) => [encode(f, quality)])
        + Encoded(frames[1..], quality, encode)
  }

  /** The part of each image. */
  function Framed(images: seq<string>): seq<string> {
    if images == [] then [] else [Part(images[0])] + Framed(images[1..])
  }

  /** Number of send attempts for parts. */
  function Attempts(t: seq<Event>): nat {
    if t == [] then 0 else Attempts(t[..|t| - 1]) + (if t[|t| - 1].PartSent? then 1 else 0)
  }

  /** Number of parts written successfully. */
  function Delivered(t: seq<Event>): nat {
    if t == [] then 0
    else Delivered(t[..|t| - 1]) + (if t[|t| - 1].PartSent? && t[|t| - 1].ok then 1 else 0)
  }

  /** The part of every send attempt, in order. */
  function AttemptedParts(t: seq<Event>): seq<string> {
    if t == [] then []
    else AttemptedParts(t[..|t| - 1]) + (if t[|t| - 1].PartSent? then [t[|t| - 1].part] else [])
  }

  /** The body the client received: every part whose write succeeded, in order. */
  function Received(t: seq<Event>): string {
    if t == [] then []
    else Received(t[..|t| - 1]) + (if t[|t| - 1].PartSent? && t[|t| - 1].ok then t[|t| - 1].part else [])
  }

  /** A session ended because a write failed. */
  predicate EndsInFailure(t: seq<Event>) {
    |t| > 0 && (t[|t| - 1].HeaderSent? || t[|t| - 1].PartSent?) && !t[|t| - 1].ok
  }

  /** The event that may follow a. */
  predicate Next(a: Event, b: Event) {
    match a
    case HeaderSent(_, ok) => ok && b.CameraStarted?
    case CameraStarted(_) => b.FrameGrabbed?
    case FrameGrabbed(ok) => if ok then b.PartSent? else b.FrameGrabbed?
    case PartSent(_, ok) => ok && b.FpsShown?
    case FpsShown(_) => b.FrameGrabbed?
  }

  predicate Chained(t: seq<Event>) {
    forall j :: 0 <= j < |t| - 1 ==> Next(t[j], t[j + 1])
  }

  /** An event after which the handler may stop or be observed to stop. */
  predicate Settled(e: Event) {
    e != FrameGrabbed(true) && !(e.PartSent? && e.ok)
  }

  /**
   * The handler's protocol: it starts with the header, every event is one
   * the previous event allows, an acquired frame is always sent and a
   * delivered part is always followed by showFps.
   */
  predicate Protocol(t: seq<Event>) {
    |t| > 0 && t[0].HeaderSent? && Chained(t) && Settled(t[|t| - 1])
  }

  /** The /img handler, on the camera outcomes frames. */
  method ServeImg<F>(args: Args, preset: seq<string>, frames: seq<Option<F>>,
                     world: World<F>, meter: FpsMeter)
    returns (trace: seq<Event>, status: Status)
    modifies meter
    ensures trace == Session(args, preset, frames, world, old(meter.begin))
    ensures status == HeaderFailed <==> !world.link(0)
    ensures status != Streaming <==> EndsInFailure(trace)
    ensures meter.begin == if world.link(0) then FinalBegin(frames, args.videoQuality, world, 0, old(meter.begin))
                           else old(meter.begin)
  {
    var headers := preset + ImgHeaders;
    var headerOk := world.link(0);
    trace := [HeaderSent(headers, headerOk)];
    if !headerOk {
      status := HeaderFailed;
      return;
    }
    var options := CameraOptionsOf(args);
    trace := trace + [CameraStarted(options)];
    var events, failed := StreamFrames(frames, args.videoQuality, world, meter);
    StartEnds(headers, options, events);
    trace := trace + events;
    status := if failed then SendFailed else Streaming;
  }

  /** The while (true) loop of the handler, once the camera is started. */
  method StreamFrames<F>(frames: seq<Option<F>>, quality: int, world: World<F>, meter: FpsMeter)
    returns (trace: seq<Event>, failed: bool)
    modifies meter
    ensures trace == Pump(frames, quality, world, 0, old(meter.begin))
    ensures failed <==> EndsInFailure(trace)
    ensures meter.begin == FinalBegin(frames, quality, world, 0, old(meter.begin))
  {
    ghost var begin0 := meter.begin;
    trace, failed := [], false;
    assert frames[0..] == frames;
    var i, k := 0, 0;
    while i < |frames|
      invariant 0 <= i <= |frames|
      invariant trace + Pump(frames[i..], quality, world, k, meter.begin)
                == Pump(frames, quality, world, 0, begin0)
      invariant FinalBegin(frames[i..], quality, world, k, meter.begin)
                == FinalBegin(frames, quality, world, 0, begin0)
      invariant !EndsInFailure(trace)
    {
      var grab := frames[i];
      if grab.None? {
        MissStep(trace, frames, i, quality, world, k, meter.begin);
        trace := trace + [FrameGrabbed(false)];
        i := i + 1;
        continue;
      }
      trace := trace + [FrameGrabbed(true)];
      var image := world.encode(grab.value, quality);
      var ok := world.link(k + 1);
      if !ok {
        FailStep(trace[..|trace| - 1], frames, i, quality, world, k, meter.begin);
        trace := trace + [PartSent(Part(image), false)];
        failed := true;
        return;
      }
      HitStep(trace[..|trace| - 1], frames, i, quality, world, k, meter.begin);
      trace := trace + [PartSent(Part(image), true)];
      var fps := meter.ShowFps(world.clock(k));
      trace := trace + [FpsShown(fps)];
      i, k := i + 1, k + 1;
    }
  }

  lemma StartEnds(headers: seq<string>, options: CameraOptions, events: seq<Event>)
    ensures EndsInFailure([HeaderSent(headers, true), CameraStarted(options)] + events)
            <==> EndsInFailure(events)
  {
  }

  lemma {:induction false} AttemptsAppend(a: seq<Event>, b: seq<Event>)
    ensures Attempts(a + b) == Attempts(a) + Attempts(b)
    decreases |b|
  {
    if b == [] {
      assert a + b == a;
    } else {
      var ab := a + b;
      assert ab[..|ab| - 1] == a + b[..|b| - 1] && ab[|ab| - 1] == b[|b| - 1];
      AttemptsAppend(a, b[..|b| - 1]);
    }
  }

  lemma {:induction false} DeliveredAppend(a: seq<Event>, b: seq<Event>)
    ensures Delivered(a + b) == Delivered(a) + Delivered(b)
    decreases |b|
  {
    if b == [] {
      assert a + b == a;
    } else {
      var ab := a + b;
      assert ab[..|ab| - 1] == a + b[..|b| - 1] && ab[|ab| - 1] == b[|b| - 1];
      DeliveredAppend(a, b[..|b| - 1]);
    }
  }

  lemma {:induction false} PartsAppend(a: seq<Event>, b: seq<Event>)
    ensures AttemptedParts(a + b) == AttemptedParts(a) + AttemptedParts(b)
    decreases |b|
  {
    if b == [] {
      assert a + b == a;
    } else {
      var ab := a + b;
      assert ab[..|ab| - 1] == a + b[..|b| - 1] && ab[|ab| - 1] == b[|b| - 1];
      PartsAppend(a, b[..|b| - 1]);
    }
  }

  lemma {:induction false} ReceivedAppend(a: seq<Event>, b: seq<Event>)
    ensures Received(a + b) == Received(a) + Received(b)
    decreases |b|
  {
    if b == [] {
      assert a + b == a;
    } else {
      var ab := a + b;
      assert ab[..|ab| - 1] == a + b[..|b| - 1] && ab[|ab| - 1] == b[|b| - 1];
      ReceivedAppend(a, b[..|b| - 1]);
    }
  }

  /** The trace counters are homomorphisms from concatenation. */
  lemma TraceAppend(a: seq<Event>, b: seq<Event>)
    ensures Attempts(a + b) == Attempts(a) + Attempts(b)
    ensures Delivered(a + b) == Delivered(a) + Delivered(b)
    ensures AttemptedParts(a + b) == AttemptedParts(a) + AttemptedParts(b)
    ensures Received(a + b) == Received(a) + Received(b)
  {
    AttemptsAppend(a, b);
    DeliveredAppend(a, b);
    PartsAppend(a, b);
    ReceivedAppend(a, b);
  }

  /** A frame that could not be acquired: the loop retries with nothing sent. */
  lemma MissStep<F>(before: seq<Event>, frames: seq<Option<F>>, i: nat, quality: int,
                    world: World<F>, k: nat, begin: int)
    requires i < |frames| && frames[i].None?
    ensures before + Pump(frames[i..], quality, world, k, begin)
            == (before + [FrameGrabbed(false)]) + Pump(frames[i + 1..], quality, world, k, begin)
    ensures FinalBegin(frames[i..], quality, world, k, begin)
            == FinalBegin(frames[i + 1..], quality, world, k, begin)
  {
    assert frames[i..][0] == frames[i] && frames[i..][1..] == frames[i + 1..];
  }

  /** An acquired frame whose part could not be written: the session ends there. */
  lemma FailStep<F>(before: seq<Event>, frames: seq<Option<F>>, i: nat, quality: int,
                    world: World<F>, k: nat, begin: int)
    requires i < |frames| && frames[i].Some? && !world.link(k + 1)
    ensures before + Pump(frames[i..], quality, world, k, begin)
            == before + [FrameGrabbed(true)] + [PartSent(Part(world.encode(frames[i].value, quality)), false)]
    ensures FinalBegin(frames[i..], quality, world, k, begin) == begin
  {
    assert frames[i..][0] == frames[i];
    var step := [FrameGrabbed(true), PartSent(Part(world.encode(frames[i].value, quality)), false)];
    assert before + step[..1] + step[1..] == before + step;
  }

  /** An acquired frame whose part was written: showFps runs and the loop goes on. */
  lemma HitStep<F>(before: seq<Event>, frames: seq<Option<F>>, i: nat, quality: int,
                   world: World<F>, k: nat, begin: int)
    requires i < |frames| && frames[i].Some? && world.link(k + 1)
    ensures before + Pump(frames[i..], quality, world, k, begin)
            == before + [FrameGrabbed(true)] + [PartSent(Part(world.encode(frames[i].value, quality)), true)]
               + [FpsShown(FpsFor(DiffMs(begin, world.clock(k))))]
               + Pump(frames[i + 1..], quality, world, k + 1, world.clock(k))
    ensures FinalBegin(frames[i..], quality, world, k, begin)
            == FinalBegin(frames[i + 1..], quality, world, k + 1, world.clock(k))
  {
    assert frames[i..][0] == frames[i] && frames[i..][1..] == frames[i + 1..];
    var step := [FrameGrabbed(true), PartSent(Part(world.encode(frames[i].value, quality)), true),
                 FpsShown(FpsFor(DiffMs(begin, world.clock(k))))];
    var rest := Pump(frames[i + 1..], quality, world, k + 1, world.clock(k));
    assert before + step[..1] + step[1..2] + step[2..] + rest == before + (step + rest);
  }

  // ---------------------------------------------------------------------
  // What a session does, as properties of its trace.

  lemma OneEvent(e: Event)
    ensures Attempts([e]) == if e.PartSent? then 1 else 0
    ensures Delivered([e]) == if e.PartSent? && e.ok then 1 else 0
    ensures AttemptedParts([e]) == if e.PartSent? then [e.part] else []
    ensures Received([e]) == if e.PartSent? && e.ok then e.part else []
  {
    assert [e][..0] == [];
  }

  function Min(a: int, b: int): int {
    if a <= b then a else b
  }

  /** The events of a missed frame, counted. */
  lemma MissTotals()
    ensures Attempts([FrameGrabbed(false)]) == 0 && Delivered([FrameGrabbed(false)]) == 0
    ensures AttemptedParts([FrameGrabbed(false)]) == [] && Received([FrameGrabbed(false)]) == []
  {
    OneEvent(FrameGrabbed(false));
  }

  /** The events of a failed send, counted. */
  lemma FailTotals(part: string)
    ensures var x := [FrameGrabbed(true), PartSent(part, false)];
      Attempts(x) == 1 && Delivered(x) == 0 && AttemptedParts(x) == [part] && Received(x) == []
  {
    var x := [FrameGrabbed(true), PartSent(part, false)];
    OneEvent(FrameGrabbed(true));
    OneEvent(PartSent(part, false));
    assert [FrameGrabbed(true)] + [PartSent(part, false)] == x;
    TraceAppend([FrameGrabbed(true)], [PartSent(part, false)]);
  }

  /** The events of a delivered part, counted. */
  lemma HitTotals(part: string, fps: nat)
    ensures var x := [FrameGrabbed(true), PartSent(part, true), FpsShown(fps)];
      Attempts(x) == 1 && Delivered(x) == 1 && AttemptedParts(x) == [part] && Received(x) == part
  {
    var y := [FrameGrabbed(true), PartSent(part, true)];
    var x := [FrameGrabbed(true), PartSent(part, true), FpsShown(fps)];
    OneEvent(FrameGrabbed(true));
    OneEvent(PartSent(part, true));
    OneEvent(FpsShown(fps));
    assert [FrameGrabbed(true)] + [PartSent(part, true)] == y;
    TraceAppend([FrameGrabbed(true)], [PartSent(part, true)]);
    assert y + [FpsShown(fps)] == x;
    TraceAppend(y, [FpsShown(fps)]);
  }

  lemma FramedCons(image: string, rest: seq<string>)
    ensures Framed([image] + rest) == [Part(image)] + Framed(rest)
  {
    assert ([image] + rest)[0] == image && ([image] + rest)[1..] == rest;
  }

  lemma BodyCons(image: string, rest: seq<string>)
    ensures Body([image] + rest) == Part(image) + Body(rest)
  {
    assert ([image] + rest)[0] == image && ([image] + rest)[1..] == rest;
  }

  /** Unfolding of the loop by one camera outcome. */
  lemma PumpCons<F>(frames: seq<Option<F>>, quality: int, world: World<F>, k: nat, begin: int)
    requires frames != []
    ensures var p := Pump(frames, quality, world, k, begin);
            var tail := frames[1..];
            var e := Encoded(frames, quality, world.encode);
            var e' := Encoded(tail, quality, world.encode);
      match frames[0]
      case None =>
        && p == [FrameGrabbed(false)] + Pump(tail, quality, world, k, begin)
        && e == e'
        && FinalBegin(frames, quality, world, k, begin) == FinalBegin(tail, quality, world, k, begin)
      case Some(f) =>
        var part := Part(world.encode(f, quality));
        && e == [world.encode(f, quality)] + e'
        && (!world.link(k + 1) ==>
              p == [FrameGrabbed(true), PartSent(part, false)]
              && FinalBegin(frames, quality, world, k, begin) == begin)
        && (world.link(k + 1) ==>
              var now := world.clock(k);
              p == [FrameGrabbed(true), PartSent(part, true), FpsShown(FpsFor(DiffMs(begin, now)))]
                   + Pump(tail, quality, world, k + 1, now)
              && FinalBegin(frames, quality, world, k, begin) == FinalBegin(tail, quality, world, k + 1, now))
  {
  }

  lemma LastOfAppend(x: seq<Event>, p: seq<Event>)
    requires x != [] && !EndsInFailure(x)
    ensures EndsInFailure(x + p) == EndsInFailure(p)
  {
    if p != [] {
      assert (x + p)[|x + p| - 1] == p[|p| - 1];
    } else {
      assert x + p == x;
    }
  }

  // One camera outcome of the loop, by case: what it adds to the counters,
  // to the parts and received bytes, and to the loop's state.

  lemma MissCounts<F>(frames: seq<Option<F>>, quality: int, world: World<F>, k: nat, begin: int)
    requires frames != [] && frames[0].None?
    ensures var p := Pump(frames, quality, world, k, begin);
            var p' := Pump(frames[1..], quality, world, k, begin);
      && Attempts(p) == Attempts(p') && Delivered(p) == Delivered(p')
      && EndsInFailure(p) == EndsInFailure(p')
  {
    var p' := Pump(frames[1..], quality, world, k, begin);
    assert Pump(frames, quality, world, k, begin) == [FrameGrabbed(false)] + p';
    MissTotals();
    AttemptsAppend([FrameGrabbed(false)], p');
    DeliveredAppend([FrameGrabbed(false)], p');
    LastOfAppend([FrameGrabbed(false)], p');
  }

  lemma MissContent<F>(frames: seq<Option<F>>, quality: int, world: World<F>, k: nat, begin: int)
    requires frames != [] && frames[0].None?
    ensures var p := Pump(frames, quality, world, k, begin);
            var p' := Pump(frames[1..], quality, world, k, begin);
      AttemptedParts(p) == AttemptedParts(p') && Received(p) == Received(p')
  {
    var p' := Pump(frames[1..], quality, world, k, begin);
    assert Pump(frames, quality, world, k, begin) == [FrameGrabbed(false)] + p';
    MissTotals();
    PartsAppend([FrameGrabbed(false)], p');
    ReceivedAppend([FrameGrabbed(false)], p');
  }

  lemma MissState<F>(frames: seq<Option<F>>, quality: int, world: World<F>, k: nat, begin: int)
    requires frames != [] && frames[0].None?
    ensures Encoded(frames, quality, world.encode) == Encoded(frames[1..], quality, world.encode)
    ensures FinalBegin(frames, quality, world, k, begin) == FinalBegin(frames[1..], quality, world, k, begin)
  {
  }

  lemma HitCounts<F>(frames: seq<Option<F>>, quality: int, world: World<F>, k: nat, begin: int)
    requires frames != [] && frames[0].Some? && world.link(k + 1)
    ensures var p := Pump(frames, quality, world, k, begin);
            var p' := Pump(frames[1..], quality, world, k + 1, world.clock(k));
      && Attempts(p) == 1 + Attempts(p') && Delivered(p) == 1 + Delivered(p')
      && EndsInFailure(p) == EndsInFailure(p')
  {
    var image := world.encode(frames[0].value, quality);
    var fps := FpsFor(DiffMs(begin, world.clock(k)));
    var x := [FrameGrabbed(true), PartSent(Part(image), true), FpsShown(fps)];
    var p' := Pump(frames[1..], quality, world, k + 1, world.clock(k));
    assert Pump(frames, quality, world, k, begin) == x + p';
    HitTotals(Part(image), fps);
    AttemptsAppend(x, p');
    DeliveredAppend(x, p');
    LastOfAppend(x, p');
  }

  lemma HitContent<F>(frames: seq<Option<F>>, quality: int, world: World<F>, k: nat, begin: int)
    requires frames != [] && frames[0].Some? && world.link(k + 1)
    ensures var p := Pump(frames, quality, world, k, begin);
            var image := world.encode(frames[0].value, quality);
            var p' := Pump(frames[1..], quality, world, k + 1, world.clock(k));
      && AttemptedParts(p) == [Part(image)] + AttemptedParts(p')
      && Received(p) == Part(image) + Received(p')
  {
    var image := world.encode(frames[0].value, quality);
    var fps := FpsFor(DiffMs(begin, world.clock(k)));
    var x := [FrameGrabbed(true), PartSent(Part(image), true), FpsShown(fps)];
    var p' := Pump(frames[1..], quality, world, k + 1, world.clock(k));
    assert Pump(frames, quality, world, k, begin) == x + p';
    HitTotals(Part(image), fps);
    PartsAppend(x, p');
    ReceivedAppend(x, p');
  }

  lemma HitState<F>(frames: seq<Option<F>>, quality: int, world: World<F>, k: nat, begin: int)
    requires frames != [] && frames[0].Some? && world.link(k + 1)
    ensures Encoded(frames, quality, world.encode)
            == [world.encode(frames[0].value, quality)] + Encoded(frames[1..], quality, world.encode)
    ensures FinalBegin(frames, quality, world, k, begin)
            == FinalBegin(frames[1..], quality, world, k + 1, world.clock(k))
  {
  }

  lemma FailCounts<F>(frames: seq<Option<F>>, quality: int, world: World<F>, k: nat, begin: int)
    requires frames != [] && frames[0].Some? && !world.link(k + 1)
    ensures var p := Pump(frames, quality, world, k, begin);
      Attempts(p) == 1 && Delivered(p) == 0 && EndsInFailure(p)
  {
    var image := world.encode(frames[0].value, quality);
    assert Pump(frames, quality, world, k, begin) == [FrameGrabbed(true), PartSent(Part(image), false)];
    FailTotals(Part(image));
  }

  lemma FailContent<F>(frames: seq<Option<F>>, quality: int, world: World<F>, k: nat, begin: int)
    requires frames != [] && frames[0].Some? && !world.link(k + 1)
    ensures var p := Pump(frames, quality, world, k, begin);
            var image := world.encode(frames[0].value, quality);
      AttemptedParts(p) == [Part(image)] && Received(p) == []
  {
    var image := world.encode(frames[0].value, quality);
    assert Pump(frames, quality, world, k, begin) == [FrameGrabbed(true), PartSent(Part(image), false)];
    FailTotals(Part(image));
  }

  lemma FailState<F>(frames: seq<Option<F>>, quality: int, world: World<F>, k: nat, begin: int)
    requires frames != [] && frames[0].Some? && !world.link(k + 1)
    ensures Encoded(frames, quality, world.encode)
            == [world.encode(frames[0].value, quality)] + Encoded(frames[1..], quality, world.encode)
    ensures FinalBegin(frames, quality, world, k, begin) == begin
  {
  }

  /** At most one send per acquired frame; every attempt but a failed last one delivers. */
  lemma {:induction false} PumpCounts<F>(frames: seq<Option<F>>, quality: int, world: World<F>,
                                          k: nat, begin: int)
    ensures var p := Pump(frames, quality, world, k, begin);
      && Attempts(p) <= |Encoded(frames, quality, world.encode)|
      && Delivered(p) + (if EndsInFailure(p) then 1 else 0) == Attempts(p)
    decreases |frames|
  {
    if frames != [] {
      if frames[0].None? {
        MissCounts(frames, quality, world, k, begin);
        PumpCounts(frames[1..], quality, world, k, begin);
      } else if world.link(k + 1) {
        HitCounts(frames, quality, world, k, begin);
        PumpCounts(frames[1..], quality, world, k + 1, world.clock(k));
      } else {
        FailCounts(frames, quality, world, k, begin);
      }
    }
  }

  /** The parts sent are those of the images of the acquired frames, in acquisition order. */
  lemma {:induction false} PumpParts<F>(frames: seq<Option<F>>, quality: int, world: World<F>,
                                         k: nat, begin: int)
    ensures var p := Pump(frames, quality, world, k, begin);
            var e := Encoded(frames, quality, world.encode);
      && Attempts(p) <= |e|
      && AttemptedParts(p) == Framed(e[..Attempts(p)])
    decreases |frames|
  {
    if frames != [] {
      var e' := Encoded(frames[1..], quality, world.encode);
      if frames[0].None? {
        MissCounts(frames, quality, world, k, begin);
        MissContent(frames, quality, world, k, begin);
        MissState(frames, quality, world, k, begin);
        PumpParts(frames[1..], quality, world, k, begin);
      } else {
        var image := world.encode(frames[0].value, quality);
        var e := [image] + e';
        if world.link(k + 1) {
          var p' := Pump(frames[1..], quality, world, k + 1, world.clock(k));
          HitCounts(frames, quality, world, k, begin);
          HitContent(frames, quality, world, k, begin);
          HitState(frames, quality, world, k, begin);
          PumpParts(frames[1..], quality, world, k + 1, world.clock(k));
          assert e[..1 + Attempts(p')] == [image] + e'[..Attempts(p')];
          FramedCons(image, e'[..Attempts(p')]);
        } else {
          FailCounts(frames, quality, world, k, begin);
          FailContent(frames, quality, world, k, begin);
          FailState(frames, quality, world, k, begin);
          assert e[..1] == [image] + [];
          FramedCons(image, []);
        }
      }
    }
  }

  /** What the client has received from the loop run from position k on. */
  predicate ReceivedAgrees<F>(frames: seq<Option<F>>, quality: int, world: World<F>, k: nat, begin: int) {
    var p := Pump(frames, quality, world, k, begin);
    var e := Encoded(frames, quality, world.encode);
    Delivered(p) <= |e| && Received(p) == Body(e[..Delivered(p)])
  }

  lemma ReceivedMiss<F>(frames: seq<Option<F>>, quality: int, world: World<F>, k: nat, begin: int)
    requires frames != [] && frames[0].None?
    requires ReceivedAgrees(frames[1..], quality, world, k, begin)
    ensures ReceivedAgrees(frames, quality, world, k, begin)
  {
    MissCounts(frames, quality, world, k, begin);
    MissContent(frames, quality, world, k, begin);
    MissState(frames, quality, world, k, begin);
  }

  lemma ReceivedHit<F>(frames: seq<Option<F>>, quality: int, world: World<F>, k: nat, begin: int)
    requires frames != [] && frames[0].Some? && world.link(k + 1)
    requires ReceivedAgrees(frames[1..], quality, world, k + 1, world.clock(k))
    ensures ReceivedAgrees(frames, quality, world, k, begin)
  {
    var image := world.encode(frames[0].value, quality);
    var e' := Encoded(frames[1..], quality, world.encode);
    var e := [image] + e';
    var p' := Pump(frames[1..], quality, world, k + 1, world.clock(k));
    HitCounts(frames, quality, world, k, begin);
    HitContent(frames, quality, world, k, begin);
    HitState(frames, quality, world, k, begin);
    assert e[..1 + Delivered(p')] == [image] + e'[..Delivered(p')];
    BodyCons(image, e'[..Delivered(p')]);
  }

  lemma ReceivedFail<F>(frames: seq<Option<F>>, quality: int, world: World<F>, k: nat, begin: int)
    requires frames != [] && frames[0].Some? && !world.link(k + 1)
    ensures ReceivedAgrees(frames, quality, world, k, begin)
  {
    FailCounts(frames, quality, world, k, begin);
    FailContent(frames, quality, world, k, begin);
    var e := Encoded(frames, quality, world.encode);
    assert e[..0] == [];
  }

  /** The client has received exactly the delivered parts, back to back. */
  lemma {:induction false} PumpReceived<F>(frames: seq<Option<F>>, quality: int, world: World<F>,
                                            k: nat, begin: int)
    ensures var p := Pump(frames, quality, world, k, begin);
            var e := Encoded(frames, quality, world.encode);
      && Delivered(p) <= |e|
      && Received(p) == Body(e[..Delivered(p)])
    decreases |frames|
  {
    if frames == [] {
    } else if frames[0].None? {
      PumpReceived(frames[1..], quality, world, k, begin);
      ReceivedMiss(frames, quality, world, k, begin);
    } else if world.link(k + 1) {
      PumpReceived(frames[1..], quality, world, k + 1, world.clock(k));
      ReceivedHit(frames, quality, world, k, begin);
    } else {
      ReceivedFail(frames, quality, world, k, begin);
    }
  }

  /** Where showFps's time point ends, for the loop run from position k on. */
  predicate BeginAgrees<F>(frames: seq<Option<F>>, quality: int, world: World<F>, k: nat, begin: int) {
    var d := Delivered(Pump(frames, quality, world, k, begin));
    FinalBegin(frames, quality, world, k, begin) == if d == 0 then begin else world.clock(k + d - 1)
  }

  lemma BeginMiss<F>(frames: seq<Option<F>>, quality: int, world: World<F>, k: nat, begin: int)
    requires frames != [] && frames[0].None?
    requires BeginAgrees(frames[1..], quality, world, k, begin)
    ensures BeginAgrees(frames, quality, world, k, begin)
  {
    MissCounts(frames, quality, world, k, begin);
    MissState(frames, quality, world, k, begin);
  }

  lemma BeginHit<F>(frames: seq<Option<F>>, quality: int, world: World<F>, k: nat, begin: int)
    requires frames != [] && frames[0].Some? && world.link(k + 1)
    requires BeginAgrees(frames[1..], quality, world, k + 1, world.clock(k))
    ensures BeginAgrees(frames, quality, world, k, begin)
  {
    HitCounts(frames, quality, world, k, begin);
    HitState(frames, quality, world, k, begin);
  }

  lemma BeginFail<F>(frames: seq<Option<F>>, quality: int, world: World<F>, k: nat, begin: int)
    requires frames != [] && frames[0].Some? && !world.link(k + 1)
    ensures BeginAgrees(frames, quality, world, k, begin)
  {
    FailCounts(frames, quality, world, k, begin);
    FailState(frames, quality, world, k, begin);
  }

  /** showFps's time point ends at the clock reading taken after the last delivered part. */
  lemma {:induction false} PumpFinalBegin<F>(frames: seq<Option<F>>, quality: int, world: World<F>,
                                              k: nat, begin: int)
    ensures var d := Delivered(Pump(frames, quality, world, k, begin));
      FinalBegin(frames, quality, world, k, begin) == if d == 0 then begin else world.clock(k + d - 1)
    decreases |frames|
  {
    if frames == [] {
    } else if frames[0].None? {
      PumpFinalBegin(frames[1..], quality, world, k, begin);
      BeginMiss(frames, quality, world, k, begin);
    } else if world.link(k + 1) {
      PumpFinalBegin(frames[1..], quality, world, k + 1, world.clock(k));
      BeginHit(frames, quality, world, k, begin);
    } else {
      BeginFail(frames, quality, world, k, begin);
    }
  }

  lemma ChainAppend(a: seq<Event>, b: seq<Event>)
    requires Chained(a) && Chained(b)
    requires a != [] && b != [] ==> Next(a[|a| - 1], b[0])
    ensures Chained(a + b)
  {
    var ab := a + b;
    forall j | 0 <= j < |ab| - 1
      ensures Next(ab[j], ab[j + 1])
    {
      if j + 1 < |a| {
        assert ab[j] == a[j] && ab[j + 1] == a[j + 1];
      } else if j + 1 == |a| {
        assert ab[j] == a[|a| - 1] && ab[j + 1] == b[0];
      } else {
        assert ab[j] == b[j - |a|] && ab[j + 1] == b[j - |a| + 1];
      }
    }
  }

  /** The loop's events follow the protocol: each is one its predecessor allows. */
  lemma {:induction false} PumpChained<F>(frames: seq<Option<F>>, quality: int, world: World<F>,
                                           k: nat, begin: int)
    ensures var p := Pump(frames, quality, world, k, begin);
      && Chained(p)
      && (p != [] ==> p[0].FrameGrabbed? && Settled(p[|p| - 1]))
    decreases |frames|
  {
    if frames != [] {
      PumpCons(frames, quality, world, k, begin);
      var tail := frames[1..];
      match frames[0]
      case None =>
        var p' := Pump(tail, quality, world, k, begin);
        PumpChained(tail, quality, world, k, begin);
        ChainAppend([FrameGrabbed(false)], p');
        LastEvent([FrameGrabbed(false)], p');
      case Some(f) =>
        var part := Part(world.encode(f, quality));
        if world.link(k + 1) {
          var now := world.clock(k);
          var x := [FrameGrabbed(true), PartSent(part, true), FpsShown(FpsFor(DiffMs(begin, now)))];
          var p' := Pump(tail, quality, world, k + 1, now);
          PumpChained(tail, quality, world, k + 1, now);
          assert Chained(x) by {
            assert Next(x[0], x[1]) && Next(x[1], x[2]);
          }
          ChainAppend(x, p');
          LastEvent(x, p');
        } else {
          var x := [FrameGrabbed(true), PartSent(part, false)];
          assert Next(x[0], x[1]);
        }
    }
  }

  lemma LastEvent(x: seq<Event>, p: seq<Event>)
    requires x != []
    ensures (x + p)[0] == x[0]
    ensures (x + p)[|x + p| - 1] == if p == [] then x[|x| - 1] else p[|p| - 1]
  {
  }

  /** Every session follows the handler's protocol. */
  lemma SessionProtocol<F>(args: Args, preset: seq<string>, frames: seq<Option<F>>,
                           world: World<F>, begin: int)
    ensures Protocol(Session(args, preset, frames, world, begin))
  {
    var t := Session(args, preset, frames, world, begin);
    if world.link(0) {
      var x := [HeaderSent(preset + ImgHeaders, true), CameraStarted(CameraOptionsOf(args))];
      var p := Pump(frames, args.videoQuality, world, 0, begin);
      PumpChained(frames, args.videoQuality, world, 0, begin);
      assert Chained(x) by {
        assert Next(x[0], x[1]);
      }
      ChainAppend(x, p);
      LastEvent(x, p);
    }
  }

  /**
   * What the protocol means for a trace: the header is sent once, first;
   * the camera starts only after the header was sent; an event that reports
   * a failed write is the last one; a part is sent only right after a frame
   * was acquired, and every acquired frame is sent; a failed acquisition is
   * followed by another acquisition attempt, never by a send.
   */
  lemma ProtocolOrder(t: seq<Event>)
    requires Protocol(t)
    ensures forall j :: 0 < j < |t| ==> !t[j].HeaderSent?
    ensures forall j :: 0 <= j < |t| && t[j].CameraStarted? ==> j == 1 && t[0].ok
    ensures forall j :: 0 <= j < |t| && (t[j].HeaderSent? || t[j].PartSent?) && !t[j].ok ==> j == |t| - 1
    ensures forall j :: 0 <= j < |t| && t[j].PartSent? ==> 0 < j && t[j - 1] == FrameGrabbed(true)
    ensures forall j :: 0 <= j < |t| && t[j] == FrameGrabbed(true) ==> j + 1 < |t| && t[j + 1].PartSent?
    ensures forall j :: 0 <= j < |t| - 1 && t[j] == FrameGrabbed(false) ==> t[j + 1].FrameGrabbed?
    ensures forall j :: 0 <= j < |t| && t[j].PartSent? && t[j].ok ==> j + 1 < |t| && t[j + 1].FpsShown?
  {
    forall j | 0 < j < |t|
      ensures !t[j].HeaderSent?
    {
      assert Next(t[j - 1], t[j]);
    }
    forall j | 0 <= j < |t| && t[j].CameraStarted?
      ensures j == 1 && t[0].ok
    {
      assert j > 0 && Next(t[j - 1], t[j]);
      assert t[j - 1].HeaderSent?;
    }
    forall j | 0 <= j < |t| && t[j].PartSent?
      ensures 0 < j && t[j - 1] == FrameGrabbed(true)
    {
      assert j > 0 && Next(t[j - 1], t[j]);
    }
    forall j | 0 <= j < |t| && t[j] == FrameGrabbed(true)
      ensures j + 1 < |t| && t[j + 1].PartSent?
    {
      assert j + 1 < |t| && Next(t[j], t[j + 1]);
    }
    forall j | 0 <= j < |t| && (t[j].HeaderSent? || t[j].PartSent?) && !t[j].ok
      ensures j == |t| - 1
    {
      assert j < |t| - 1 ==> Next(t[j], t[j + 1]);
    }
    forall j | 0 <= j < |t| && t[j].PartSent? && t[j].ok
      ensures j + 1 < |t| && t[j + 1].FpsShown?
    {
      assert j + 1 < |t| && Next(t[j], t[j + 1]);
    }
  }

  /** The first three events: the header, then the camera if and only if the header went out. */
  lemma SessionStart<F>(args: Args, preset: seq<string>, frames: seq<Option<F>>,
                        world: World<F>, begin: int)
    ensures var t := Session(args, preset, frames, world, begin);
      && t[0] == HeaderSent(preset + ImgHeaders, world.link(0))
      && (!world.link(0) ==> t == [HeaderSent(preset + ImgHeaders, false)])
      && (world.link(0) ==> |t| >= 2 && t[1] == CameraStarted(CameraOptionsOf(args)))
  {
  }

  /** The two events before the loop count for nothing and do not end the session. */
  lemma StartPrefix(headers: seq<string>, options: CameraOptions, p: seq<Event>)
    ensures var t := [HeaderSent(headers, true), CameraStarted(options)] + p;
      && Attempts(t) == Attempts(p) && Delivered(t) == Delivered(p)
      && AttemptedParts(t) == AttemptedParts(p) && Received(t) == Received(p)
      && EndsInFailure(t) == EndsInFailure(p)
  {
    var x := [HeaderSent(headers, true), CameraStarted(options)];
    OneEvent(x[0]);
    OneEvent(x[1]);
    TraceAppend([x[0]], [x[1]]);
    assert [x[0]] + [x[1]] == x;
    TraceAppend(x, p);
    LastOfAppend(x, p);
  }

  /**
   * Over a whole session: the parts sent are the parts of the encoded
   * acquired frames, a prefix of them in acquisition order; every attempt
   * but a failed last one is delivered; and what the client received reads
   * back, by Content-Length, as exactly the delivered images.
   */
  lemma SessionDelivery<F>(args: Args, preset: seq<string>, frames: seq<Option<F>>,
                           world: World<F>, begin: int)
    ensures var t := Session(args, preset, frames, world, begin);
            var e := Encoded(frames, args.videoQuality, world.encode);
      && Attempts(t) <= |e|
      && AttemptedParts(t) == Framed(e[..Attempts(t)])
      && (if world.link(0) then Delivered(t) + (if EndsInFailure(t) then 1 else 0) == Attempts(t)
          else Attempts(t) == 0)
      && Delivered(t) <= |e|
      && Received(t) == Body(e[..Delivered(t)])
      && ReadBody(Received(t)) == Some(e[..Delivered(t)])
  {
    var t := Session(args, preset, frames, world, begin);
    var e := Encoded(frames, args.videoQuality, world.encode);
    if world.link(0) {
      var q := args.videoQuality;
      var p := Pump(frames, q, world, 0, begin);
      StartPrefix(preset + ImgHeaders, CameraOptionsOf(args), p);
      PumpCounts(frames, q, world, 0, begin);
      PumpParts(frames, q, world, 0, begin);
      PumpReceived(frames, q, world, 0, begin);
    } else {
      OneEvent(t[0]);
      assert e[..0] == [];
    }
    ReadBodyOfBody(e[..Delivered(t)]);
  }

  /** After a session, showFps's time point is the clock reading after the last delivered part. */
  lemma SessionFpsClock<F>(args: Args, preset: seq<string>, frames: seq<Option<F>>,
                           world: World<F>, begin: int)
    ensures var d := Delivered(Session(args, preset, frames, world, begin));
      (if world.link(0) then FinalBegin(frames, args.videoQuality, world, 0, begin) else begin)
      == if d == 0 then begin else world.clock(d - 1)
  {
    if world.link(0) {
      var p := Pump(frames, args.videoQuality, world, 0, begin);
      StartPrefix(preset + ImgHeaders, CameraOptionsOf(args), p);
      PumpFinalBegin(frames, args.videoQuality, world, 0, begin);
    } else {
      OneEvent(HeaderSent(preset + ImgHeaders, false));
    }
  }

  /** Attempts and outcome of the loop run from position k on, when write n fails. */
  predicate FailureAgrees<F>(frames: seq<Option<F>>, quality: int, world: World<F>, k: nat, begin: int,
                             n: nat) {
    var p := Pump(frames, quality, world, k, begin);
    var e := Encoded(frames, quality, world.encode);
    Attempts(p) == Min(n - k, |e|) && (EndsInFailure(p) <==> n - k <= |e|)
  }

  lemma FailureMiss<F>(frames: seq<Option<F>>, quality: int, world: World<F>, k: nat, begin: int, n: nat)
    requires frames != [] && frames[0].None?
    requires FailureAgrees(frames[1..], quality, world, k, begin, n)
    ensures FailureAgrees(frames, quality, world, k, begin, n)
  {
    MissCounts(frames, quality, world, k, begin);
    MissState(frames, quality, world, k, begin);
  }

  lemma FailureHit<F>(frames: seq<Option<F>>, quality: int, world: World<F>, k: nat, begin: int, n: nat)
    requires frames != [] && frames[0].Some? && world.link(k + 1) && k + 1 < n
    requires FailureAgrees(frames[1..], quality, world, k + 1, world.clock(k), n)
    ensures FailureAgrees(frames, quality, world, k, begin, n)
  {
    var e' := Encoded(frames[1..], quality, world.encode);
    HitCounts(frames, quality, world, k, begin);
    HitState(frames, quality, world, k, begin);
    assert 1 + Min(n - (k + 1), |e'|) == Min(n - k, 1 + |e'|);
  }

  lemma FailureAt<F>(frames: seq<Option<F>>, quality: int, world: World<F>, k: nat, begin: int, n: nat)
    requires frames != [] && frames[0].Some? && !world.link(k + 1) && k + 1 == n
    ensures FailureAgrees(frames, quality, world, k, begin, n)
  {
    FailCounts(frames, quality, world, k, begin);
    FailState(frames, quality, world, k, begin);
  }

  lemma {:induction false} PumpFirstFailure<F>(frames: seq<Option<F>>, quality: int, world: World<F>,
                                                k: nat, begin: int, n: nat)
    requires k < n
    requires forall j :: k + 1 <= j < n ==> world.link(j)
    requires !world.link(n)
    ensures var p := Pump(frames, quality, world, k, begin);
            var e := Encoded(frames, quality, world.encode);
      && Attempts(p) == Min(n - k, |e|)
      && (EndsInFailure(p) <==> n - k <= |e|)
    decreases |frames|
  {
    if frames == [] {
    } else if frames[0].None? {
      PumpFirstFailure(frames[1..], quality, world, k, begin, n);
      FailureMiss(frames, quality, world, k, begin, n);
    } else if k + 1 < n {
      assert world.link(k + 1);
      PumpFirstFailure(frames[1..], quality, world, k + 1, world.clock(k), n);
      FailureHit(frames, quality, world, k, begin, n);
    } else {
      FailureAt(frames, quality, world, k, begin, n);
    }
  }

  /**
   * If the n-th write of the response is the first to fail (write 0 being
   * the header), the session attempted n parts and delivered n - 1 of them,
   * or stopped short when the camera delivered fewer frames; no send
   * follows the failed one.
   */
  lemma SessionFirstFailure<F>(args: Args, preset: seq<string>, frames: seq<Option<F>>,
                               world: World<F>, begin: int, n: nat)
    requires 1 <= n
    requires forall j :: 0 <= j < n ==> world.link(j)
    requires !world.link(n)
    ensures var t := Session(args, preset, frames, world, begin);
            var e := Encoded(frames, args.videoQuality, world.encode);
      && Attempts(t) == Min(n, |e|)
      && Delivered(t) == Min(n - 1, |e|)
      && (EndsInFailure(t) <==> n <= |e|)
  {
    var p := Pump(frames, args.videoQuality, world, 0, begin);
    assert world.link(0);
    StartPrefix(preset + ImgHeaders, CameraOptionsOf(args), p);
    PumpFirstFailure(frames, args.videoQuality, world, 0, begin, n);
    PumpCounts(frames, args.videoQuality, world, 0, begin);
  }

  lemma {:induction false} EncodedAllAcquired<F>(frames: seq<Option<F>>, quality: int, encode: (F, int) -> string)
    requires forall i :: 0 <= i < |frames| ==> frames[i].Some?
    ensures |Encoded(frames, quality, encode)| == |frames|
    ensures forall i :: 0 <= i < |frames| ==> Encoded(frames, quality, encode)[i] == encode(frames[i].value, quality)
    decreases |frames|
  {
    if frames != [] {
      var rest := Encoded(frames[1..], quality, encode);
      EncodedAllAcquired(frames[1..], quality, encode);
      assert Encoded(frames, quality, encode) == [encode(frames[0].value, quality)] + rest;
      forall i | 1 <= i < |frames|
        ensures Encoded(frames, quality, encode)[i] == encode(frames[i].value, quality)
      {
        assert frames[1..][i - 1] == frames[i];
      }
    }
  }

  /**
   * A client that stays connected gets every acquired frame: one attempted and
   * delivered part per encoder output, and the loop never reports failure.
   */
  lemma {:induction false} PumpNeverFails<F>(frames: seq<Option<F>>, quality: int, world: World<F>,
                                             k: nat, begin: int)
    requires forall j :: world.link(j)
    ensures var p := Pump(frames, quality, world, k, begin);
      && Attempts(p) == |Encoded(frames, quality, world.encode)|
      && Delivered(p) == Attempts(p)
      && !EndsInFailure(p)
    decreases |frames|
  {
    if frames != [] {
      if frames[0].None? {
        MissCounts(frames, quality, world, k, begin);
        MissState(frames, quality, world, k, begin);
        PumpNeverFails(frames[1..], quality, world, k, begin);
      } else {
        assert world.link(k + 1);
        HitCounts(frames, quality, world, k, begin);
        HitState(frames, quality, world, k, begin);
        PumpNeverFails(frames[1..], quality, world, k + 1, world.clock(k));
      }
    }
  }

  /**
   * The session of a client that stays connected: every acquired frame is sent
   * and delivered, in order, and the client reads back all of them.
   */
  lemma SessionNeverFails<F>(args: Args, preset: seq<string>, frames: seq<Option<F>>,
                             world: World<F>, begin: int)
    requires forall j :: world.link(j)
    ensures var t := Session(args, preset, frames, world, begin);
            var e := Encoded(frames, args.videoQuality, world.encode);
      && Attempts(t) == |e| && Delivered(t) == |e|
      && !EndsInFailure(t)
      && AttemptedParts(t) == Framed(e)
      && ReadBody(Received(t)) == Some(e)
  {
    var p := Pump(frames, args.videoQuality, world, 0, begin);
    var e := Encoded(frames, args.videoQuality, world.encode);
    assert world.link(0);
    StartPrefix(preset + ImgHeaders, CameraOptionsOf(args), p);
    PumpNeverFails(frames, args.videoQuality, world, 0, begin);
    SessionDelivery(args, preset, frames, world, begin);
    assert e[..|e|] == e;
  }

  /** Write failure on the fifth part: exactly four parts delivered, and the session ends. */
  lemma FifthPartFails<F>(args: Args, preset: seq<string>, frames: seq<Option<F>>,
                          world: World<F>, begin: int)
    requires forall j :: world.link(j) <==> j != 5
    requires |frames| >= 5 && forall i :: 0 <= i < |frames| ==> frames[i].Some?
    ensures var t := Session(args, preset, frames, world, begin);
      Attempts(t) == 5 && Delivered(t) == 4 && EndsInFailure(t)
  {
    EncodedAllAcquired(frames, args.videoQuality, world.encode);
    SessionFirstFailure(args, preset, frames, world, begin, 5);
  }

  lemma {:induction false} PumpStarved<F>(frames: seq<Option<F>>, quality: int, world: World<F>,
                                           k: nat, begin: int)
    requires forall i :: 0 <= i < |frames| ==> frames[i].None?
    ensures Pump(frames, quality, world, k, begin) == seq(|frames|, _ => FrameGrabbed(false))
    decreases |frames|
  {
    if frames != [] {
      PumpStarved(frames[1..], quality, world, k, begin);
      assert seq(|frames|, _ => FrameGrabbed(false))
          == [FrameGrabbed(false)] + seq(|frames| - 1, _ => FrameGrabbed(false));
    }
  }

  /**
   * A camera that never delivers a frame: after the header and the camera
   * start, the session only retries acquisition; nothing is sent and the
   * session does not end.
   */
  lemma StarvedSession<F>(args: Args, preset: seq<string>, frames: seq<Option<F>>,
                          world: World<F>, begin: int)
    requires world.link(0)
    requires forall i :: 0 <= i < |frames| ==> frames[i].None?
    ensures var t := Session(args, preset, frames, world, begin);
      && t == [HeaderSent(preset + ImgHeaders, true), CameraStarted(CameraOptionsOf(args))]
              + seq(|frames|, _ => FrameGrabbed(false))
      && Attempts(t) == 0
      && !EndsInFailure(t)
      && Encoded(frames, args.videoQuality, world.encode) == []
  {
    var p := Pump(frames, args.videoQuality, world, 0, begin);
    PumpStarved(frames, args.videoQuality, world, 0, begin);
    StartPrefix(preset + ImgHeaders, CameraOptionsOf(args), p);
    PumpCounts(frames, args.videoQuality, world, 0, begin);
    NoneEncoded(frames, args.videoQuality, world.encode);
  }

  lemma {:induction false} NoneEncoded<F>(frames: seq<Option<F>>, quality: int, encode: (F, int) -> string)
    requires forall i :: 0 <= i < |frames| ==> frames[i].None?
    ensures Encoded(frames, quality, encode) == []
    decreases |frames|
  {
    if frames != [] {
      NoneEncoded(frames[1..], quality, encode);
    }
  }

  /**
   * With main's default arguments the camera is started as camera 0 at
   * 640x480 and 60 frames per second, quietly, and every part carries an image
   * encoded at JPEG quality 80.
   */
  lemma DefaultSession<F>(preset: seq<string>, frames: seq<Option<F>>, world: World<F>, begin: int)
    requires world.link(0)
    ensures var t := Session(DefaultArgs, preset, frames, world, begin);
            var e := Encoded(frames, 80, world.encode);
      && t[1] == CameraStarted(CameraOptions(0, 640, 480, 60, false))
      && Attempts(t) <= |e|
      && AttemptedParts(t) == Framed(e[..Attempts(t)])
  {
    SessionStart(DefaultArgs, preset, frames, world, begin);
    SessionDelivery(DefaultArgs, preset, frames, world, begin);
  }
}
