# Camera client: MJPEG frame extraction, streaming control and registration

A Dafny model of the core of a PyQt desktop client that shows a live camera
feed pulled from a remote server. Three pieces are modelled:

- **The video worker** (`VideoThread` in `main.py`). It reads the server's
  multipart MJPEG stream in chunks and appends each chunk to a byte accumulator.
  After each append it looks for the first JPEG start-of-image marker `FF D8`
  and the first end-of-image marker `FF D9` (ITU-T T.81, Table B.1). When both
  are present it cuts out `buf[a..b+2]` as a payload and keeps `buf[b+2..]`. The
  payload is decoded and emitted if decoding succeeds. The loop ends when a read
  returns no bytes, when a read raises, or when the `running` flag is cleared.
  Modules: `ByteSearch` (`bytes.find` and Python slicing), `FrameExtraction` (one
  extraction step and the loop's state over a sequence of chunks), and
  `VideoWorker` (the `VideoThread` class with its imperative `Run` loop and `Stop`).
- **The streaming state machine** (`MiInterfaz` in `main.py`), modelled as the
  class `CameraSession.Panel`. Its state is whether streaming is on, the current
  camera index, the reported camera list, the current worker, the server
  parameters and what the video label shows. Its transitions are toggle,
  activate, stop, start-stream, frame display and next/previous camera with
  wrap-around. A ghost set of replaced workers records the invariant that every
  worker the window replaced or stopped has had its flag cleared. The server's
  replies are method parameters, and the URLs requested are method results. `StreamUrls` and `Decimal` build the request
  URLs and prove that the camera index can be read back from a stream URL.
- **The registration form** (`VentanaRegistro.registrar_usuario`), in the module
  `Registration`. It covers the blank-field and password checks, the companion
  "server" account derived from the username, and the outcome assembled from the
  two registration replies. The error list is built by an imperative loop.

Where the code differs from what a reader of an MJPEG client might expect, the
model follows the code:

- Only one payload is cut per chunk read, even when the accumulator holds
  several complete images (`FrameExtraction.OneExtractionPerChunk`).
- The first `FF D9` is used even when it lies before the first `FF D8`. The
  payload is then the empty slice, and the pending start marker survives in the
  accumulator (`FrameExtraction.ExtractReversed`).
- Activation always streams camera 0. Next/previous always move when there are
  at least two cameras.
- When the worker's loop ends on its own, `running` stays true.
- Activation sets the streaming flag even when no public URL exists and so no
  worker was started (`CameraSession.Panel.Activate`).

## Model

| member | source | states |
|---|---|---|
| `ByteSearch.FindFrom` | main.py:38-39 | the result is -1 or an occurrence of the pattern at or after the start index, and no occurrence lies between the start index and the result |
| `ByteSearch.Find` | main.py:38-39 | `find` returns -1 exactly when the pattern does not occur, otherwise the index of its first occurrence |
| `FrameExtraction.Extract` | main.py:38-42 | no payload exactly when one of the two markers is missing, and then the accumulator is the old buffer followed by the chunk; with a payload, the new accumulator is a suffix of the buffer at least two bytes shorter |
| `FrameExtraction.MarkersApart` | main.py:38-39 | a start marker and an end marker never overlap: they begin at least two bytes apart |
| `FrameExtraction.ExtractOrdered` | main.py:38-42 | with the first `FF D8` at `a` before the first `FF D9` at `b`, the payload is `buf[a..b+2]`, the accumulator becomes `buf[b+2..]`, and only the bytes before `a` are dropped |
| `FrameExtraction.PayloadDelimited` | main.py:38-41 | such a payload has at least four bytes, starts with `FF D8`, ends with `FF D9` and holds no `FF D9` before its last two bytes |
| `FrameExtraction.ExtractReversed` | main.py:38-42 | with the first `FF D9` before the first `FF D8`, the payload is empty, the accumulator becomes `buf[b+2..]`, and the start marker with everything after it is kept |
| `FrameExtraction.PayloadShape` | main.py:38-44 | every payload handed to the decoder is empty or delimited by the two markers |
| `FrameExtraction.Pumped` | main.py:33-46 | frames emitted ≤ payloads extracted ≤ chunks read: at most one extraction per chunk |
| `FrameExtraction.PumpedFramesInOrder` | main.py:41-46 | a frame is emitted for exactly the payloads the decoder accepts, in extraction order |
| `FrameExtraction.PumpedAccIsSuffix` | main.py:37-42 | the accumulator always holds the most recent bytes read, in arrival order (a suffix of the whole stream) |
| `FrameExtraction.PumpedPayloadsDelimited` | main.py:37-44 | every payload extracted over a whole run is empty or delimited by `FF D8` … `FF D9` |
| `FrameExtraction.OneExtractionPerChunk` | main.py:37-42 | two complete images in one chunk yield one payload; the second image stays in the accumulator |
| `FrameExtraction.TwoFramesExtract` | main.py:38-42 | the concrete extraction step behind the previous row: the first image is cut, the second is left |
| `VideoWorker.Consumed` | main.py:33-36 | the number of chunks absorbed: every one of them returned bytes, and the loop stopped at the first empty or failed read or when the stop landed |
| `VideoWorker.ConsumedUnique` | main.py:33-36 | those conditions determine the count uniquely |
| `VideoWorker.VideoThread.constructor` | main.py:23-26 | a new worker keeps its URL and starts with the flag cleared |
| `VideoWorker.VideoThread.Stop` | main.py:57-59 | `stop` clears the `running` flag |
| `VideoWorker.VideoThread.Run` | main.py:28-55 | the frames emitted are those of the extraction loop over the chunks absorbed; a failed open emits nothing and reports `Error en stream: …`; a failed read reports the same message; `running` is false only when the stop ended the loop |
| `Decimal.Digits` | main.py:505 | `str(n)` is non-empty, all digits, with no leading zero |
| `Decimal.ValueOfDigits` | main.py:505 | reading back `str(n)` gives `n` |
| `Decimal.DigitsInjective` | main.py:505 | distinct indices have distinct texts |
| `StreamUrls.PublicBaseIgnoresServer` | main.py:374-376 | with a public URL set, activation and listing go to it whatever the server's IP and port are |
| `StreamUrls.EmptyPublicUrlIsAbsent` | main.py:374 | an empty public URL is falsy, so it selects the direct `http://` address exactly as a missing one does |
| `StreamUrls.DeactivationBypassesPublicUrl` | main.py:484-487 | deactivation never uses the public URL: with a public URL that is not a plain `http://` address, activation goes there and deactivation to the direct address |
| `StreamUrls.ActivateAndListDiffer` | main.py:376-377 | the activation and list requests share the base and differ in path |
| `StreamUrls.StreamUrlCamera` | main.py:505 | the camera index is recovered from the end of `{public}/video/{index}` |
| `StreamUrls.StreamUrlInjective` | main.py:505 | different cameras get different stream URLs |
| `StreamUrls.DeactivationSharesDirectBase` | main.py:484-489 | without a public URL, the deactivation request goes to the same base as the activation request |
| `CameraSession.ActivationOutcome` | main.py:386-443 | activation starts exactly when the activation reply is 200, the list reply is 200, the list is non-empty and `camara_activa` is true; a raised activation request is reported as such |
| `CameraSession.NextIndex` | main.py:561 | `(i+1) mod n` stays in `[0, n)`, is `i+1` inside the list and wraps from the last camera to the first |
| `CameraSession.PreviousIndex` | main.py:555 | `(i-1) mod n` stays in `[0, n)`, is `i-1` for `0 < i ≤ n` and wraps from the first camera to the last |
| `CameraSession.NavigationInverse` | main.py:553-563 | previous after next, and next after previous, restore the index |
| `CameraSession.NextTimesWithinLap` | main.py:559-563 | within one lap, `k` presses of next move from `i` to `i+k` |
| `CameraSession.NextTimesCompose` | main.py:559-563 | `a` presses then `b` presses equal `a+b` presses |
| `CameraSession.NextTimesWraps` | main.py:559-563 | `n-i` presses from camera `i` wrap to camera 0 |
| `CameraSession.NextTimesFullLap` | main.py:559-563 | `n` presses return to the starting camera |
| `CameraSession.NextVisitsEveryCamera` | main.py:559-563 | every camera is reached from any other in fewer than `n` presses |
| `CameraSession.Panel.constructor` | main.py:65-74 | a window starts with no cameras, camera 0, streaming off and no worker, holding the server parameters it was given |
| `CameraSession.Panel.ShowVideoError` | main.py:537-539 | the label shows `Error: ` followed by the message, and nothing else changes |
| `CameraSession.Panel.ShowFrame` | main.py:516-518 | a frame is painted only while streaming is on and is ignored otherwise |
| `CameraSession.Panel.StartVideoStream` | main.py:491-514 | the existing worker is stopped and retired first, so every replaced worker has its flag cleared; with a public URL a fresh, not yet running worker for `{public}/video/{camera}` is created and the label is kept; without one there is no worker and the label shows the missing-URL error; server parameters, cameras, camera, streaming flag and scheduled deactivations are unchanged |
| `CameraSession.Panel.StopStreaming` | main.py:463-482 | afterwards there is no worker, streaming is off and the label is blank; the previous worker is stopped and retired; a deactivation request to `http://{ip}:{port}/desactivar-camara` is scheduled exactly when both IP and port are known; server parameters, cameras and camera are unchanged |
| `CameraSession.Panel.Activate` | main.py:373-461 | the activation request goes to `{base}/activar-camara` and, only after a 200, the list request to `{base}/listar-camaras`, where the base is the public URL if set and `http://{ip}:{port}` otherwise; the outcome is the activation outcome of the two replies, and the camera list is replaced whenever the list request answered 200; on success camera 0 is selected, streaming is on and the stream restarts with the label showing the start-up text (or the missing-URL error); on failure camera, streaming flag and worker are untouched and the label is cleared, except that a refused list leaves the "obtaining list" text and an empty list shows that no camera was detected; server parameters and scheduled deactivations are unchanged |
| `CameraSession.Panel.ToggleStreaming` | main.py:363-371 | nothing is requested or changed without both IP and port; otherwise, when streaming is off, the requests and the whole effect of an activation with the given replies (as for `Activate`), and when it is on, no request at once and the whole effect of stopping (as for `StopStreaming`, one deactivation request scheduled) |
| `CameraSession.Panel.PreviousCamera` | main.py:553-557 | with more than one camera the index steps back with wrap-around and the stream restarts on the new camera (a fresh worker with a public URL, the missing-URL error without one), nothing scheduled; otherwise nothing changes and no restart happens; server parameters, cameras and streaming flag are always kept |
| `CameraSession.Panel.NextCamera` | main.py:559-563 | with more than one camera the index steps forward with wrap-around and the stream restarts on the new camera (a fresh worker with a public URL, the missing-URL error without one), nothing scheduled; otherwise nothing changes and no restart happens; server parameters, cameras and streaming flag are always kept |
| `Registration.TrimStart` | VentanaRegistro.py:65-67 | the result is a suffix of the input with only whitespace dropped, and it does not start with whitespace |
| `Registration.TrimEnd` | VentanaRegistro.py:65-67 | the result is a prefix of the input with only whitespace dropped, and it does not end with whitespace |
| `Registration.Strip` | VentanaRegistro.py:65-67 | the stripped field neither starts nor ends with whitespace |
| `Registration.StripIsMiddle` | VentanaRegistro.py:65-67 | the stripped field is the input from the end of its leading whitespace on, character for character, and what is dropped on either side is all whitespace |
| `Registration.TrimStartEmptyIff` | VentanaRegistro.py:65-67 | stripping leading whitespace leaves nothing exactly when the text is all whitespace |
| `Registration.TrimEndEmptyIff` | VentanaRegistro.py:65-67 | stripping trailing whitespace leaves nothing exactly when the text is all whitespace |
| `Registration.StripEmptyIff` | VentanaRegistro.py:65-74 | a stripped field is empty exactly when it held only whitespace |
| `Registration.ServerUsernameInverse` | VentanaRegistro.py:87-88 | the server account's name is the username plus `_server`, the client's name is recovered from it, it never equals the client's name, and its e-mail is that name at `example.com` |
| `Registration.Validate` | VentanaRegistro.py:64-95 | blank fields refuse first; differing passwords refuse second; otherwise the accounts are the stripped username and e-mail with type `cliente` and the derived server name and e-mail with type `server`, both with the first password |
| `Registration.BlankFieldRefused` | VentanaRegistro.py:72-74 | a name, username or e-mail made only of whitespace, or an empty password, refuses before any request |
| `Registration.ErrorsEmptyIff` | VentanaRegistro.py:101-105 | the error list is empty exactly when every reply answered 200 |
| `Registration.CollectErrors` | VentanaRegistro.py:102-105 | the loop appends exactly one line per non-200 reply, in reply order |
| `Registration.ErrorsOfPair` | VentanaRegistro.py:103-105 | the client's error line, prefixed `cliente: `, comes before the server's, prefixed `server: `; each carries `detail` or `Error desconocido` |
| `Registration.Combine` | VentanaRegistro.py:97-106 | a raised request is a network error; with both replies present, registration succeeds exactly when both are 200 and is rejected exactly when one is not, with one or two error lines, the client's first |
| `Registration.RegisterUser` | VentanaRegistro.py:64-108 | a refused form sends nothing; otherwise the client account is sent first, the server account only after the client request returned, and the outcome combines the two replies |

## Left out

- Qt widgets, layouts, style sheets, message boxes and `processEvents` are not modelled. Neither are button texts, the camera counter text, the visibility of the navigation controls, pixmap scaling, the BGR→RGB conversion in the frame display and the text shown when that conversion raises. This is all presentation; the video label is kept only as far as streaming affects it (blank, a frame, a progress or error text).
- Network I/O (`urlopen`, `requests.get`/`post`), request timeouts and `time.sleep` are not modelled. Every reply, read and exception is a parameter.
- JPEG decoding is the parameter `decode`, because the image library is foreign code.
- `VideoWorker.VideoThread.Run`: the decoder parameter returns an optional frame and cannot raise. An exception from the decoder, for instance on the empty payload cut when `FF D9` precedes `FF D8`, would end the source's loop with an error; the model does not capture this.
- `VideoWorker.VideoThread.Run`: the chunk size of 1024 bytes is not modelled. Chunks are arbitrary byte strings, so reads of at most 1024 bytes are one case; which payloads are cut does depend on the chunking, since one extraction is attempted per read.
- Thread scheduling, the unsynchronised `running` flag, the bounded `wait(3000)` join and queued signal delivery are not modelled. A read can block for up to its 10 s timeout, so a replaced worker may still be running after the join; the model only records that its flag was cleared. The moment the window's `Stop` lands is the parameter `stopAfter`, counted in completed loop iterations.
- `CameraSession.Panel.StartVideoStream`: the worker's `start()` is not modelled as a call to `Run`. The new worker is handed over with its flag still clear, and what it later delivers is described by `VideoWorker.VideoThread.Run` alone.
- Frames already queued by a replaced worker are not modelled, because the model has no signal queues. In the source, `iniciar_video_stream` does not disconnect the old worker's signal, so such frames can still reach the window.
- Cookie persistence, login, logout and the session check are file and HTTP I/O. The panel's constructor receives the server IP, port and public URL that the session check would store.
- `QTimer.singleShot` is modelled as the list of scheduled deactivation requests (`StreamUrls.DeactivateUrl` of the window's IP and port). The 100 ms delay and the request itself are not modelled; its result is ignored by the source.
- `closeEvent` only calls `detener_streaming`, which is `StopStreaming`.
- The server port is modelled as text. A JSON integer port of 0 would count as missing in the source; the model has no such case.
- A registration reply whose body is not a JSON object makes `r.json().get` raise in the source, with an effect that depends on the HTTP library version. Bodies are modelled as already decoded to an optional `detail`.
- The account type selected in the registration form is read but never used by the source, so it is not a field of `Registration.Form`.
- The registration error lines are joined with newlines into a message box; that text is presentation, and the model keeps the list.
