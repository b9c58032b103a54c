# Camera streamer: a Dafny model of the streaming core

The program is a small HTTP camera streamer for a Raspberry Pi. Its whole
core sits in `current/src/main.cpp`:

- At startup it looks up the IPv4 address of `eth0`. If there is none, it
  exits with status 5.
- On `/` it serves a landing page whose `<img>` tag points at the stream.
- On `/img` it sends a fixed list of response headers. It then starts the
  camera and loops forever: grab a frame, JPEG-encode it, and send it as one
  part of a `multipart/x-mixed-replace` body. The first failed send ends the
  session.
- After every delivered part, `showFps` computes frames per second from the
  milliseconds since the previous call.

The model is split into these modules:

- `Wrappers`: `Option`.
- `Decimal`: `std::to_string` for naturals and integers, with readers that
  prove the renderings parse back.
- `Multipart`: the `/img` header list, one part's framing, and the body as the
  client receives it.
- `Fps`: `showFps` as the class `FpsMeter`. Its field `begin` stands for the
  function-local static time point. It includes the `uint32_t` truncation of
  the millisecond count and the zero guard.
- `ImgSession`: the `/img` handler.
  - `ServeImg` and its loop `StreamFrames` are imperative methods. They are
    proved equal to the trace functions `Session` and `Pump`.
  - The collaborators are parameters:
    - the camera: a sequence of `getVideoFrame` outcomes;
    - the encoder: a function to bytes;
    - the socket: whether the n-th write succeeds, where write 0 is the header;
    - the steady clock: its reading at the n-th `showFps` call.
  - The trace records each step. Lemmas prove the ordering, stopping at the
    first failed send, part counts, and which bytes the client receives.
- `Landing`: the landing page and a reader that recovers the advertised
  address, port, width and height.
- `NetIf`: `getIPAddress` as a `while` scan over the interface records, with
  `strncmp` and `inet_ntoa` modelled. Also the startup exit status.

## Model

| member | source | states |
|---|---|---|
| Decimal.ReadNatDec | current/src/main.cpp:184 | the decimal rendering of a length, followed by a non-digit, reads back as the same number |
| Decimal.ReadIntDec | current/src/main.cpp:198-200 | the rendering of a signed int (port, width, height) reads back as that int |
| Decimal.NatToDecInjective | current/src/main.cpp:184 | distinct lengths get distinct Content-Length texts |
| Decimal.IntToDec | current/src/main.cpp:198-200 | non-empty, and starts with a minus sign exactly for a negative value; see Decimal.ReadIntDec |
| Decimal.NatToDec | current/src/main.cpp:184 | the rendering is a non-empty digit string, single-digit exactly below ten, without a leading zero unless the value is 0 |
| Multipart.PartContentLength | current/src/main.cpp:181-185 | the Content-Length field of a part gives exactly the image's byte length, followed by the blank line and the image |
| Multipart.ReadPartOfPart | current/src/main.cpp:181-185 | a part followed by anything decodes to exactly its image and that remainder (no CRLF after the image) |
| Multipart.ReadBodyOfBody | current/src/main.cpp:169-188 | the concatenated parts of a stream split back into the sent images, in order |
| Multipart.Part | current/src/main.cpp:181-185 | no contract of its own; see Multipart.PartContentLength and Multipart.ReadPartOfPart |
| Fps.TruncDiv | current/src/main.cpp:76 | the quotient rounds toward zero: q·d ≤ a < (q+1)·d for a ≥ 0 and (q−1)·d < a ≤ q·d for a < 0, as `duration_cast` truncates; used by Fps.DiffMs |
| Fps.DiffMs | current/src/main.cpp:75-77 | the millisecond count fits in 32 bits and is the truncating quotient when the interval fits |
| Fps.FpsFor | current/src/main.cpp:78 | at most 1000; zero exactly for 0 ms or more than 1000 ms; otherwise the integer quotient 1000 / ms |
| Fps.FpsMeter.ShowFps | current/src/main.cpp:69-80 | returns the rate for the interval since the stored time point, at most 1000, and stores the new time point |
| Fps.SubMillisecondIsZero | current/src/main.cpp:75-78 | two calls less than a millisecond apart report 0 and do not divide |
| Fps.FpsOfInterval | current/src/main.cpp:75-78 | an interval of ms whole milliseconds reports 1000 / ms |
| ImgSession.Pump | current/src/main.cpp:169-192 | no contract of its own; see ImgSession.PumpCounts, PumpParts, PumpReceived, PumpChained, PumpFirstFailure and PumpStarved |
| ImgSession.FinalBegin | current/src/main.cpp:187-190 | no contract of its own; the time point that `showFps` stores at main.cpp:80, called after each delivered part and kept when the loop returns; see ImgSession.PumpFinalBegin and SessionFpsClock |
| ImgSession.Session | current/src/main.cpp:142-192 | no contract of its own; see ImgSession.SessionStart, SessionProtocol, SessionDelivery and SessionFirstFailure |
| ImgSession.ServeImg | current/src/main.cpp:142-192 | the handler's trace is Session; the status is HeaderFailed exactly when the header write fails, and not Streaming exactly when the trace ends in a failed write; the stored FPS time point is the one left by the loop |
| ImgSession.StreamFrames | current/src/main.cpp:169-192 | the loop's trace is Pump; it reports failure exactly when the trace ends in a failed send; the meter's time point is FinalBegin |
| ImgSession.CameraOptionsOf | current/src/main.cpp:159-163 | no contract of its own; camera number, width, height and frame rate from the arguments, verbose off; see ImgSession.SessionStart and ImgSession.DefaultSession |
| ImgSession.SessionStart | current/src/main.cpp:143-164 | the first event is the header write with the six headers of `Multipart.ImgHeaders` (main.cpp:143-149) after the preset ones; on failure it is the only event, with no camera start and no part; otherwise the camera start with the configured options comes second |
| ImgSession.DefaultSession | current/src/main.cpp:86-89 | with main's default arguments the camera starts as camera 0 at 640x480 and 60 fps, and the parts carry the frames encoded at quality 80 |
| ImgSession.SessionProtocol | current/src/main.cpp:143-192 | every session trace starts with the header write, follows the handler's step order, and does not stop after a grabbed frame or a delivered part |
| ImgSession.ProtocolOrder | current/src/main.cpp:151-188 | in such a trace: one header write, first; the camera starts second and only after a good header; a failed write is last; every send follows a good grab and every good grab is followed by a send; a failed grab leads only to another grab; every delivered part is followed by the FPS step |
| ImgSession.SessionDelivery | current/src/main.cpp:169-188 | the parts sent are the framed encodings of the acquired frames, in acquisition order; delivered = attempted minus the failed one; the client receives the body of the first delivered images and reads it back |
| ImgSession.SessionFpsClock | current/src/main.cpp:187-190 | after the session, the FPS time point (stored by `showFps` at main.cpp:80) is the clock reading at the last delivered part, or unchanged if none was delivered |
| ImgSession.PumpFirstFailure | current/src/main.cpp:181-188 | from loop write k on, with the first failing write at n: Attempts == min(n − k, acquired frames), and the loop ends in failure exactly when n − k ≤ acquired frames |
| ImgSession.SessionFirstFailure | current/src/main.cpp:181-188 | when write n is the first to fail: Attempts == min(n, acquired frames), Delivered == min(n − 1, acquired frames), and the session ends in failure exactly when n ≤ acquired frames |
| ImgSession.PumpNeverFails | current/src/main.cpp:169-192 | with every write succeeding, from any point of the loop: one attempted part per encoder output, all delivered, no failure |
| ImgSession.SessionNeverFails | current/src/main.cpp:142-192 | for a client that stays connected: Attempts == Delivered == number of acquired frames, no failure, the parts are the framed encodings of all of them, and the client reads them all back |
| ImgSession.FifthPartFails | current/src/main.cpp:181-188 | with only write 5 failing and at least five good frames: five attempts, four parts delivered, stop |
| ImgSession.StarvedSession | current/src/main.cpp:169-175 | if every acquisition fails, only retries follow the start: the list of encoder outputs is empty, and there is no send and no failure |
| ImgSession.PumpStarved | current/src/main.cpp:169-175 | a run of failed acquisitions produces only retry events |
| ImgSession.EncodedAllAcquired | current/src/main.cpp:177-178 | with every acquisition succeeding, the list of encoder outputs has one entry per frame, the i-th being frame i's encoding |
| ImgSession.NoneEncoded | current/src/main.cpp:169-175 | with every acquisition failing, the list of encoder outputs is empty |
| ImgSession.PumpCounts | current/src/main.cpp:181-188 | the delivered count is the attempted count minus the one failed send, if any |
| ImgSession.PumpParts | current/src/main.cpp:177-185 | the attempted parts are the framed encodings of the first acquired frames |
| ImgSession.PumpReceived | current/src/main.cpp:181-188 | the received bytes are the body of the delivered images |
| ImgSession.PumpChained | current/src/main.cpp:169-192 | every loop trace follows the step order from a camera start |
| Landing.LandingPage | current/src/main.cpp:194-203 | no contract of its own; see Landing.LandingRoundTrip and Landing.LandingImgTag |
| Landing.LandingRoundTrip | current/src/main.cpp:194-203 | the landing page reads back as exactly the address, port, width and height it was built from |
| Landing.LandingImgTag | current/src/main.cpp:194-203 | the page holds src='http://ip:port/img' and, after it, width='w' height='h' |
| Landing.Landing9000 | current/src/main.cpp:194-203 | for port 9000 and 320x240 the page holds the stream URL and width='320' height='240' |
| NetIf.StrncmpEq | current/src/main.cpp:54-55 | no contract of its own; see NetIf.StrncmpPrefix |
| NetIf.StrncmpPrefix | current/src/main.cpp:54-55 | for C strings, strncmp over the interface name's length is zero exactly when it is a prefix of the entry name |
| NetIf.Ntoa | current/src/main.cpp:57-58 | no contract of its own; see NetIf.NtoaRoundTrip and NetIf.NtoaShape |
| NetIf.NtoaRoundTrip | current/src/main.cpp:57-58 | the dotted quad reads back as the address |
| NetIf.NtoaShape | current/src/main.cpp:57-58 | a dotted quad is never empty and holds no colon |
| NetIf.Matches | current/src/main.cpp:52-55 | no contract of its own; the entry has an address (the skip the corrected scan adds), its family is AF_INET, and strncmp over the interface name's length is zero; see NetIf.FirstMatch, NetIf.LookupFound and NetIf.AsWrittenAgrees |
| NetIf.FirstMatch | current/src/main.cpp:49-63 | the index of an IPv4 entry with a matching name that no such entry precedes, or none when no entry matches |
| NetIf.GetIPAddress | current/src/main.cpp:42-67 | the scan returns the address of the first matching entry, or empty when the list is unavailable or nothing matches |
| NetIf.LookupAddress | current/src/main.cpp:42-67 | no contract of its own; see NetIf.LookupEmpty, NetIf.LookupFound and NetIf.GetIPAddress |
| NetIf.LookupEmpty | current/src/main.cpp:42-67 | the result is empty exactly when the list is unavailable or no entry matches |
| NetIf.LookupFound | current/src/main.cpp:49-63 | an IPv4 entry whose name starts with the interface name, with no match before it, supplies the returned address |
| NetIf.LookupAsWritten | current/src/main.cpp:52 | the scan as written: it dereferences every entry's address before the name test |
| NetIf.AsWrittenAgrees | current/src/main.cpp:49-63 | when every entry that no match precedes has an address, the scan as written returns what the model does |
| NetIf.AsWrittenCrashes | current/src/main.cpp:52 | an address-less entry ahead of eth0 crashes the scan as written, while the model returns eth0's address |
| NetIf.StartupExit | current/src/main.cpp:129-140 | the exit status is 5 exactly when the address is empty |
| NetIf.AbortsIffNoInterface | current/src/main.cpp:129-140 | startup exits with 5 exactly when no IPv4 entry for eth0 is found |
| NetIf.AdvertisedPage | current/src/main.cpp:129-140 | when startup goes on, the landing page built from the found address reads back intact |

## Left out

- Command-line parsing and the help and log flags (`main.cpp:92-125`): option
  glue. The argument map is the datatype `Args` with main's defaults.
- The HTTP server (`server.h`, which is not part of this model). This covers
  `listen`, request routing, `res >>`, and how `send_header` and `send_msg`
  write. Only their success results are modelled. The headers the server adds
  itself are the parameter `preset`.
- The camera library and OpenCV (`lccv::PiCamera`, `cv::imencode`,
  `cv::Mat`). Acquisition is an outcome sequence and encoding a function to
  bytes. A failing `cv::imencode` is not modelled: its result is ignored at
  `main.cpp:178`.
- The 100 ms acquisition timeout is part of the camera outcome only.
- ImgSession.ServeImg: the source loops forever. The model observes it for a
  finite window of acquisition attempts. A loop that exhausts the window
  without a failed send returns `Streaming`.
- The `showFps` static is shared by all sessions and its first value comes
  from the first call. The model passes in one `FpsMeter` whose start is the
  constructor's argument.
- Time points are integer nanosecond counts of the steady clock.
- Bytes of `std::string` are modelled as `char`s, and the encoder's output
  as a string.
- `getifaddrs`, `inet_ntoa` and `freeifaddrs`: the interface list is a
  sequence of records, or `None` when `getifaddrs` fails. The source walks it
  as a linked list; the model walks the sequence by index.
- GetIPAddress models the corrected scan (see Findings). LookupAsWritten
  covers the source's behaviour but models the crash only as `None`.
- Console output, the `printLog` formatting and the FPS display line: logging
  only.
- The exception handlers around `listen` (`main.cpp:206-224`) and threading
  inside the server: error plumbing and concurrency.
- The part body has no CRLF after the image, as the code writes it. A general
  description of MJPEG streams would put one there.
- `Received` takes a failed write to deliver none of its bytes; a partial
  write is not modelled. The read-back claim of `SessionDelivery` rests on
  this.
- The header is sent before the camera is configured and started, as the
  code orders it.

## Findings

| source | as written | input that shows it | evidently intended | confidence | as-written member | corrected member |
|---|---|---|---|---|---|---|
| current/src/main.cpp:52 | reads `ifa_addr->sa_family` without checking `ifa_addr`, which `getifaddrs` leaves null for interfaces without an address | an address-less `tun0` entry listed before `eth0` | skip entries without an address and return eth0's address | not executed; from the interface list contract | NetIf.AsWrittenCrashes | NetIf.GetIPAddress |
