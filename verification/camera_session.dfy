/**
 * The camera window's streaming state machine: whether streaming is on, which
 * camera is shown, the cameras the server reported and the current video
 * worker. The server's replies are parameters of the transitions.
 */
module CameraSession {
  import opened Wrappers
  import opened FrameExtraction
  import opened VideoWorker
  import opened StreamUrls

  /** The exceptions a request can raise, as the window tells them apart. */
  datatype RequestError = Timeout | ConnectionFailed | Unexpected(reason: string)

  /** One HTTP exchange: the exception raised, or the status code with the decoded body. */
  datatype Reply<T> = Raised(failure: RequestError) | Answered(status: int, body: T)

  /**
   * The camera-list body: `camaras` (an empty list when the key is absent) and
   * `camara_activa` (false when absent).
   */
  datatype CameraList = CameraList(cameras: seq<string>, active: bool)

  /** How an activation attempt ends. */
  datatype Activation =
    | Started
    | ActivateRefused(status: int)
    | ListRefused(status: int)
    | NoCameras
    | CamerasInactive
    | RequestFailed(failure: RequestError)

  /** What the streaming button does. */
  datatype Toggle = MissingServer | Activating(result: Activation) | Deactivated

  /** What the video label shows, as far as the stream is concerned. */
  datatype Screen = Blank | Picture(frame: Frame) | Message(text: string)

  const NoPublicUrl: string := "No se tiene URL pública del servidor"

  /** The label's progress and status texts during an activation. */
  const ActivatingCameras: string := "Activando cámaras..."
  const FetchingList: string := "Obteniendo lista de cámaras..."
  const NoCamerasDetected: string := "El sistema no detecta ninguna cámara"
  const StartingStream: string := "Iniciando transmisión..."

  /** The message the video label shows for a stream error. */
  function ErrorText(message: string): string {
    "Error: " + message
  }

  /**
   * The outcome of the two requests of an activation. The camera list is only
   * requested when activation answered 200; `list` is ignored otherwise.
   */
  function ActivationOutcome(activate: Reply<()>, list: Reply<CameraList>): (r: Activation)
    ensures r == Started <==>
      (activate.Answered? && activate.status == 200 && list.Answered? && list.status == 200 &&
       list.body.cameras != [] && list.body.active)
    ensures activate.Raised? ==> r == RequestFailed(activate.failure)
  {
    match activate
    case Raised(f) => RequestFailed(f)
    case Answered(code, _) =>
      if code != 200 then ActivateRefused(code)
      else match list
        case Raised(f) => RequestFailed(f)
        case Answered(status, body) =>
          if status != 200 then ListRefused(status)
          else if body.cameras == [] then NoCameras
          else if !body.active then CamerasInactive
          else Started
  }

  /** The camera list after an activation: replaced whenever the list request answered 200. */
  function CamerasAfter(previous: seq<string>, activate: Reply<()>, list: Reply<CameraList>): seq<string> {
    if activate.Answered? && activate.status == 200 && list.Answered? && list.status == 200 then list.body.cameras
    else previous
  }

  /** `(i + 1) % n`: the camera after `i`, wrapping to the first. */
  function NextIndex(i: nat, n: nat): (r: nat)
    requires n > 0
    ensures r < n
    ensures i + 1 < n ==> r == i + 1
    ensures i + 1 == n ==> r == 0
  {
    (i + 1) % n
  }

  /**
   * `(i - 1) % n`: the camera before `i`, wrapping to the last. For a positive
   * divisor Python's floored remainder and Dafny's Euclidean one agree.
   */
  function PreviousIndex(i: nat, n: nat): (r: nat)
    requires n > 0
    ensures r < n
    ensures 0 < i <= n ==> r == i - 1
    ensures i == 0 ==> r == n - 1
  {
    (i - 1) % n
  }

  /** Going forward then back, or back then forward, returns to the same camera. */
  lemma NavigationInverse(i: nat, n: nat)
    requires i < n
    ensures PreviousIndex(NextIndex(i, n), n) == i
    ensures NextIndex(PreviousIndex(i, n), n) == i
  {
  }

  /** `k` presses of "next" from `i`. */
  function NextTimes(i: nat, n: nat, k: nat): (r: nat)
    requires n > 0
    decreases k
  {
    if k == 0 then i else NextIndex(NextTimes(i, n, k - 1), n)
  }

  /** Within one lap, `k` presses of "next" from camera `i` land on camera `i + k`. */
  lemma {:induction false} NextTimesWithinLap(i: nat, n: nat, k: nat)
    requires i + k < n
    ensures NextTimes(i, n, k) == i + k
    decreases k
  {
    if k > 0 {
      NextTimesWithinLap(i, n, k - 1);
    }
  }

  /** Pressing "next" `a` times and then `b` times is pressing it `a + b` times. */
  lemma {:induction false} NextTimesCompose(i: nat, n: nat, a: nat, b: nat)
    requires n > 0
    ensures NextTimes(i, n, a + b) == NextTimes(NextTimes(i, n, a), n, b)
    decreases b
  {
    if b > 0 {
      NextTimesCompose(i, n, a, b - 1);
    }
  }

  /** From camera `i`, `n - i` presses of "next" wrap around to the first camera. */
  lemma NextTimesWraps(i: nat, n: nat)
    requires i < n
    ensures NextTimes(i, n, n - i) == 0
  {
    NextTimesWithinLap(i, n, n - i - 1);
  }

  /** A full lap of `n` presses of "next" returns to the camera it started from. */
  lemma NextTimesFullLap(i: nat, n: nat)
    requires i < n
    ensures NextTimes(i, n, n) == i
  {
    NextTimesCompose(i, n, n - i, i);
    NextTimesWraps(i, n);
    NextTimesWithinLap(0, n, i);
  }

  /** Every camera is reached from every other in fewer than `n` presses of "next". */
  lemma NextVisitsEveryCamera(i: nat, n: nat, j: nat)
    requires i < n && j < n
    ensures var k := if i <= j then j - i else n - i + j;
      k < n && NextTimes(i, n, k) == j
  {
    if i <= j {
      NextTimesWithinLap(i, n, j - i);
    } else {
      NextTimesCompose(i, n, n - i, j);
      NextTimesWraps(i, n);
      NextTimesWithinLap(0, n, j);
    }
  }

  class Panel {
    var serverIp: Option<string>
    var serverPort: Option<string>
    var publicUrl: Option<string>
    var cameras: seq<string>
    var currentCamera: nat
    var streamingActive: bool
    var videoThread: VideoThread?
    var screen: Screen
    /** The deactivation requests scheduled on a timer, in the order they were scheduled. */
    var scheduledDeactivations: seq<string>
    /** Every worker this window replaced or stopped. */
    ghost var retired: set<VideoThread>

    /** The current worker is not a replaced one, and every replaced worker has its flag cleared. */
    ghost predicate Valid()
      reads this, retired
    {
      (videoThread != null ==> videoThread !in retired) &&
      forall t :: t in retired ==> !t.running
    }

    /** The server's IP, port and public URL are kept. */
    twostate predicate SameServer()
      reads this
    {
      serverIp == old(serverIp) && serverPort == old(serverPort) && publicUrl == old(publicUrl)
    }

    /**
     * The stream was (re)started on the current camera: the previous worker, if
     * any, is retired; with a public URL a fresh worker that has not begun
     * running streams the current camera, and the label is kept; without one
     * there is no worker and the label shows the missing-URL error.
     */
    twostate predicate Restarted()
      reads this, videoThread
    {
      retired == old(retired) + (if old(videoThread) != null then {old(videoThread)} else {}) &&
      (Present(publicUrl) ==>
         videoThread != null && fresh(videoThread) && !videoThread.running &&
         videoThread.url == StreamUrl(publicUrl.value, currentCamera)) &&
      (!Present(publicUrl) ==> videoThread == null && screen == Message(ErrorText(NoPublicUrl)))
    }

    /**
     * Streaming was stopped: no worker, streaming off, a blank label, the
     * previous worker retired, and a deactivation request to the direct
     * address scheduled exactly when both IP and port are known; the server
     * parameters and the cameras are kept.
     */
    twostate predicate Stopped()
      reads this
    {
      videoThread == null && !streamingActive && screen == Blank &&
      retired == old(retired) + (if old(videoThread) != null then {old(videoThread)} else {}) &&
      scheduledDeactivations == old(scheduledDeactivations) +
        (if Present(serverIp) && Present(serverPort) then [DeactivateUrl(serverIp, serverPort)] else []) &&
      serverIp == old(serverIp) && serverPort == old(serverPort) && publicUrl == old(publicUrl) &&
      cameras == old(cameras) && currentCamera == old(currentCamera)
    }

    /**
     * An activation ended with `outcome`, which is the outcome of the two
     * replies, after sending the `requested` URLs: the activation request under
     * the base URL, then the list request under the same base only when
     * activation answered 200. The camera list is replaced whenever the list request answered
     * 200. On success camera 0 is selected, streaming is on and the stream is
     * restarted, the label showing the start-up text (or the missing-URL
     * error). On failure camera, streaming flag and worker are untouched and
     * the label is cleared, except that a refused list leaves the progress
     * text and an empty list shows that no camera was detected.
     */
    twostate predicate Activated(activate: Reply<()>, list: Reply<CameraList>, outcome: Activation,
                                 requested: seq<string>)
      reads this, videoThread
    {
      outcome == ActivationOutcome(activate, list) &&
      requested == [ActivateUrl(BaseUrl(publicUrl, serverIp, serverPort))] +
        (if activate.Answered? && activate.status == 200
         then [ListUrl(BaseUrl(publicUrl, serverIp, serverPort))] else []) &&
      cameras == CamerasAfter(old(cameras), activate, list) &&
      (outcome == Started ==>
         currentCamera == 0 && streamingActive && Restarted() &&
         (Present(publicUrl) ==> screen == Message(StartingStream))) &&
      (outcome != Started ==>
         currentCamera == old(currentCamera) && streamingActive == old(streamingActive) &&
         videoThread == old(videoThread) && retired == old(retired) &&
         (videoThread != null ==> videoThread.running == old(videoThread.running))) &&
      (outcome.RequestFailed? || outcome.ActivateRefused? || outcome == CamerasInactive ==> screen == Blank) &&
      (outcome.ListRefused? ==> screen == Message(FetchingList)) &&
      (outcome == NoCameras ==> screen == Message(NoCamerasDetected)) &&
      SameServer() && scheduledDeactivations == old(scheduledDeactivations)
    }

    /** A window holding the server parameters its login session supplied. */
    constructor (serverIp: Option<string>, serverPort: Option<string>, publicUrl: Option<string>)
      ensures Valid()
      ensures this.serverIp == serverIp && this.serverPort == serverPort && this.publicUrl == publicUrl
      ensures cameras == [] && currentCamera == 0 && !streamingActive && videoThread == null
      ensures screen == Blank && scheduledDeactivations == [] && retired == {}
    {
      this.serverIp, this.serverPort, this.publicUrl := serverIp, serverPort, publicUrl;
      cameras, currentCamera, streamingActive, videoThread := [], 0, false, null;
      screen, scheduledDeactivations := Blank, [];
      retired := {};
    }

    /** Shows a stream error on the video label. */
    method ShowVideoError(message: string)
      modifies this
      ensures screen == Message(ErrorText(message))
      ensures serverIp == old(serverIp) && serverPort == old(serverPort) && publicUrl == old(publicUrl)
      ensures cameras == old(cameras) && currentCamera == old(currentCamera)
      ensures streamingActive == old(streamingActive) && videoThread == old(videoThread)
      ensures scheduledDeactivations == old(scheduledDeactivations) && retired == old(retired)
    {
      screen := Message(ErrorText(message));
    }

    /** A frame from the worker is painted only while streaming is on. */
    method ShowFrame(frame: Frame)
      modifies this
      ensures screen == if old(streamingActive) then Picture(frame) else old(screen)
      ensures serverIp == old(serverIp) && serverPort == old(serverPort) && publicUrl == old(publicUrl)
      ensures cameras == old(cameras) && currentCamera == old(currentCamera)
      ensures streamingActive == old(streamingActive) && videoThread == old(videoThread)
      ensures scheduledDeactivations == old(scheduledDeactivations) && retired == old(retired)
    {
      if !streamingActive {
        return;
      }
      screen := Picture(frame);
    }

    /**
     * Starts the stream of the current camera: any existing worker is stopped
     * and dropped first; without a public URL an error is shown and no worker
     * is created.
     */
    method StartVideoStream()
      requires Valid()
      modifies this, videoThread
      ensures Valid()
      ensures Restarted()
      ensures Present(publicUrl) ==> screen == old(screen)
      ensures SameServer() && cameras == old(cameras) && currentCamera == old(currentCamera)
      ensures streamingActive == old(streamingActive) && scheduledDeactivations == old(scheduledDeactivations)
    {
      if videoThread != null {
        videoThread.Stop();
        retired := retired + {videoThread};
        videoThread := null;
      }
      if !Present(publicUrl) {
        ShowVideoError(NoPublicUrl);
        return;
      }
      var url := StreamUrl(publicUrl.value, currentCamera);
      videoThread := new VideoThread(url);
    }

    /**
     * Stops streaming: the worker is stopped and dropped, the label is blanked,
     * and a server deactivation is scheduled only when the IP and port are known.
     */
    method StopStreaming()
      requires Valid()
      modifies this, videoThread
      ensures Valid()
      ensures Stopped()
    {
      if videoThread != null {
        videoThread.Stop();
        retired := retired + {videoThread};
        videoThread := null;
      }
      streamingActive := false;
      screen := Blank;
      if Present(serverIp) && Present(serverPort) {
        scheduledDeactivations := scheduledDeactivations + [DeactivateUrl(serverIp, serverPort)];
      }
    }

    /**
     * Asks the server to activate its cameras, then for the camera list; starts
     * streaming camera 0 only when both answered 200 and the list is non-empty
     * and active. `requested` lists the URLs the requests were sent to.
     */
    method Activate(activate: Reply<()>, list: Reply<CameraList>)
      returns (outcome: Activation, requested: seq<string>)
      requires Valid()
      modifies this, videoThread
      ensures Valid()
      ensures Activated(activate, list, outcome, requested)
    {
      var base := BaseUrl(publicUrl, serverIp, serverPort);
      screen := Message(ActivatingCameras);
      requested := [ActivateUrl(base)];
      if activate.Raised? {
        screen := Blank;
        return RequestFailed(activate.failure), requested;
      }
      if activate.status != 200 {
        screen := Blank;
        return ActivateRefused(activate.status), requested;
      }
      screen := Message(FetchingList);
      requested := requested + [ListUrl(base)];
      if list.Raised? {
        screen := Blank;
        return RequestFailed(list.failure), requested;
      }
      if list.status != 200 {
        return ListRefused(list.status), requested;
      }
      cameras := list.body.cameras;
      if cameras == [] {
        screen := Message(NoCamerasDetected);
        return NoCameras, requested;
      }
      if !list.body.active {
        screen := Blank;
        return CamerasInactive, requested;
      }
      screen := Message(StartingStream);
      currentCamera := 0;
      StartVideoStream();
      streamingActive := true;
      outcome := Started;
    }

    /**
     * The streaming button: nothing happens without the server's IP and port;
     * otherwise it activates when streaming is off and stops when it is on.
     * `requested` lists the URLs requested at once; stopping only schedules
     * its deactivation request.
     */
    method ToggleStreaming(activate: Reply<()>, list: Reply<CameraList>)
      returns (result: Toggle, requested: seq<string>)
      requires Valid()
      modifies this, videoThread
      ensures Valid()
      ensures !(Present(old(serverIp)) && Present(old(serverPort))) ==>
        result == MissingServer && requested == [] && unchanged(this) &&
        (old(videoThread) != null ==> unchanged(old(videoThread)))
      ensures Present(old(serverIp)) && Present(old(serverPort)) && !old(streamingActive) ==>
        result.Activating? && Activated(activate, list, result.result, requested)
      ensures Present(old(serverIp)) && Present(old(serverPort)) && old(streamingActive) ==>
        result == Deactivated && requested == [] && Stopped()
    {
      if !Present(serverIp) || !Present(serverPort) {
        return MissingServer, [];
      }
      if !streamingActive {
        var outcome;
        outcome, requested := Activate(activate, list);
        result := Activating(outcome);
      } else {
        StopStreaming();
        result, requested := Deactivated, [];
      }
    }

    /** "Previous": with more than one camera, step back with wrap-around and restart the stream. */
    method PreviousCamera()
      requires Valid()
      modifies this, videoThread
      ensures Valid()
      ensures |cameras| > 1 ==>
        currentCamera == PreviousIndex(old(currentCamera), |cameras|) && Restarted() &&
        (Present(publicUrl) ==> screen == old(screen)) &&
        scheduledDeactivations == old(scheduledDeactivations)
      ensures |cameras| <= 1 ==>
        unchanged(this) && (old(videoThread) != null ==> unchanged(old(videoThread)))
      ensures SameServer() && cameras == old(cameras) && streamingActive == old(streamingActive)
    {
      if |cameras| > 1 {
        currentCamera := PreviousIndex(currentCamera, |cameras|);
        StartVideoStream();
      }
    }

    /** "Next": with more than one camera, step forward with wrap-around and restart the stream. */
    method NextCamera()
      requires Valid()
      modifies this, videoThread
      ensures Valid()
      ensures |cameras| > 1 ==>
        currentCamera == NextIndex(old(currentCamera), |cameras|) && Restarted() &&
        (Present(publicUrl) ==> screen == old(screen)) &&
        scheduledDeactivations == old(scheduledDeactivations)
      ensures |cameras| <= 1 ==>
        unchanged(this) && (old(videoThread) != null ==> unchanged(old(videoThread)))
      ensures SameServer() && cameras == old(cameras) && streamingActive == old(streamingActive)
    {
      if |cameras| > 1 {
        currentCamera := NextIndex(currentCamera, |cameras|);
        StartVideoStream();
      }
    }
  }
}
